/**
 * The helpers that utils/msr.py and func/Custom_msr.py share word for word:
 * `hcf`, the cubic branch of `get_planes`, `make_grid`, `gen_fcc` and `gen_bcc`.
 */
module Lattice {
  import opened Common

  // ---------------------------------------------------------------- hcf

  function Mul(a: int, b: int): int
  {
    a * b
  }

  /** `d` divides `n`. */
  ghost predicate Divides(d: int, n: int)
  {
    exists k :: Mul(d, k) == n
  }

  /** `g` is the greatest common divisor of `x` and `y` (both taken non-negative). */
  ghost predicate IsGcd(g: int, x: int, y: int)
  {
    && g >= 0
    && Divides(g, x) && Divides(g, y)
    && forall d :: d > 0 && Divides(d, x) && Divides(d, y) ==> Divides(d, g)
  }

  /** Python's `x // y` (floor division). */
  function PyDiv(x: int, y: int): int
    requires y != 0
  {
    if y > 0 then x / y
    else if x % (-y) == 0 then -(x / (-y))
    else -(x / (-y)) - 1
  }

  /** Python's `x % y`: the remainder takes the sign of `y`. */
  function PyMod(x: int, y: int): (m: int)
    requires y != 0
    ensures y > 0 ==> 0 <= m < y
    ensures y < 0 ==> y < m <= 0
  {
    if y > 0 then x % y
    else if x % (-y) == 0 then 0
    else x % (-y) + y
  }

  lemma PyDivMod(x: int, y: int)
    requires y != 0
    ensures x == y * PyDiv(x, y) + PyMod(x, y)
  {
    if y < 0 {
      var z := -y;
      assert x == z * (x / z) + x % z;
    }
  }

  /** One step of Euclid's loop keeps the set of common divisors. */
  lemma EuclidStep(d: int, x: int, y: int)
    requires y != 0
    ensures (Divides(d, x) && Divides(d, y)) <==> (Divides(d, y) && Divides(d, PyMod(x, y)))
  {
    var m, q := PyMod(x, y), PyDiv(x, y);
    PyDivMod(x, y);
    if Divides(d, y) {
      var a :| Mul(d, a) == y;
      if Divides(d, x) {
        var b :| Mul(d, b) == x;
        assert Mul(d, b - a * q) == m by {
          assert d * (b - a * q) == d * b - (d * a) * q;
        }
      }
      if Divides(d, m) {
        var c :| Mul(d, c) == m;
        assert Mul(d, a * q + c) == x by {
          assert d * (a * q + c) == (d * a) * q + d * c;
        }
      }
    }
  }

  /** Euclid's loop `x, y = y, x % y` until `y` is 0, as a function. */
  function Euclid(x: int, y: int): int
    decreases Abs(y)
  {
    if y == 0 then x else Euclid(y, PyMod(x, y))
  }

  /** What `hcf(x, y)` returns. */
  function HcfOf(x: int, y: int): int
  {
    if x == 0 then y else if y == 0 then x else Euclid(x, y)
  }

  lemma {:induction false} EuclidDivisors(x: int, y: int, d: int)
    requires d > 0
    ensures Divides(d, Euclid(x, y)) <==> Divides(d, x) && Divides(d, y)
    decreases Abs(y)
  {
    if y == 0 {
      assert Mul(d, 0) == 0;
    } else {
      EuclidStep(d, x, y);
      EuclidDivisors(y, PyMod(x, y), d);
    }
  }

  lemma {:induction false} EuclidNonNegative(x: int, y: int)
    requires x >= 0 && y >= 0
    ensures Euclid(x, y) >= 0
    decreases y
  {
    if y != 0 {
      EuclidNonNegative(y, PyMod(x, y));
    }
  }

  /** On non-negative arguments `hcf` is non-negative and has exactly their common divisors. */
  lemma HcfOfDivisors(x: int, y: int, d: int)
    requires x >= 0 && y >= 0 && d > 0
    ensures HcfOf(x, y) >= 0
    ensures Divides(d, HcfOf(x, y)) <==> Divides(d, x) && Divides(d, y)
  {
    assert Mul(d, 0) == 0;
    if x != 0 && y != 0 {
      EuclidNonNegative(x, y);
      EuclidDivisors(x, y, d);
    }
  }

  /**
   * `hcf(x, y)`: returns `y` when `x` is 0, `x` when `y` is 0, otherwise runs
   * Euclid's loop with Python's remainder. The result always has the same
   * positive common divisors as the inputs; for non-negative inputs it is their gcd.
   */
  method Hcf(x0: int, y0: int) returns (r: int)
    ensures r == HcfOf(x0, y0)
    ensures x0 == 0 ==> r == y0
    ensures x0 != 0 && y0 == 0 ==> r == x0
    ensures forall d :: d > 0 ==> (Divides(d, r) <==> Divides(d, x0) && Divides(d, y0))
    ensures x0 >= 0 && y0 >= 0 ==> IsGcd(r, x0, y0)
  {
    if x0 == 0 {
      forall d | d > 0 ensures Divides(d, 0) { assert Mul(d, 0) == 0; }
      if y0 >= 0 {
        assert Mul(y0, 0) == 0 && Mul(y0, 1) == y0;
      }
      return y0;
    } else if y0 == 0 {
      forall d | d > 0 ensures Divides(d, 0) { assert Mul(d, 0) == 0; }
      r := x0;
      if x0 >= 0 {
        assert Mul(r, 0) == 0 && Mul(r, 1) == r;
      }
      return;
    }
    var x, y := x0, y0;
    while y != 0
      invariant x != 0
      invariant x0 >= 0 && y0 >= 0 ==> x > 0 && y >= 0
      invariant forall d :: d > 0 ==> (Divides(d, x) && Divides(d, y) <==> Divides(d, x0) && Divides(d, y0))
      invariant Euclid(x, y) == Euclid(x0, y0)
      decreases if y < 0 then -y else y
    {
      forall d | d > 0
        ensures Divides(d, x) && Divides(d, y) <==> Divides(d, y) && Divides(d, PyMod(x, y))
      {
        EuclidStep(d, x, y);
      }
      x, y := y, PyMod(x, y);
    }
    r := x;
    forall d | d > 0 ensures Divides(d, 0) { assert Mul(d, 0) == 0; }
    if x0 >= 0 && y0 >= 0 {
      assert Mul(r, 0) == 0 && Mul(r, 1) == r;
      assert Divides(r, r) && Divides(r, 0);
    }
  }

  // ---------------------------------------------------------- get_planes

  /**
   * `get_planes` reads h, k, l with `float(index[0])`, `float(index[1])`,
   * `float(index[2])`: the first three CHARACTERS of the face string. Fewer than
   * three characters raise IndexError and a non-digit character raises
   * ValueError; both are `None` here.
   */
  function ParseIndexChars(s: string): (r: Option<Plane>)
    ensures r.Some? <==> |s| >= 3 && IsDigit(s[0]) && IsDigit(s[1]) && IsDigit(s[2])
    ensures r.Some? ==> 0 <= r.value.0 < 10 && 0 <= r.value.1 < 10 && 0 <= r.value.2 < 10
  {
    if |s| >= 3 && IsDigit(s[0]) && IsDigit(s[1]) && IsDigit(s[2]) then
      Some((DigitValue(s[0]), DigitValue(s[1]), DigitValue(s[2])))
    else None
  }

  /**
   * The error reading the first three characters raises: the first position
   * that is missing (IndexError) or not a digit (ValueError).
   */
  function GetPlanesError(s: string): string
    requires ParseIndexChars(s).None?
  {
    if |s| < 1 then "IndexError"
    else if !IsDigit(s[0]) then "ValueError"
    else if |s| < 2 then "IndexError"
    else if !IsDigit(s[1]) then "ValueError"
    else if |s| < 3 then "IndexError"
    else "ValueError"
  }

  /** The six orders `itertools.permutations([a, b, c])` yields. */
  function Perms6(a: int, b: int, c: int): seq<Plane>
  {
    [(a, b, c), (a, c, b), (b, a, c), (b, c, a), (c, a, b), (c, b, a)]
  }

  /** What the innermost sign loop appends: l flipped, then flipped back. */
  function LBlock(h: int, k: int, l: int): seq<Plane>
  {
    Perms6(h, k, -l) + Perms6(h, k, l)
  }

  function KBlock(h: int, k: int, l: int): seq<Plane>
  {
    LBlock(h, -k, l) + LBlock(h, k, l)
  }

  /** The 48 tuples the three nested sign loops append, in order. */
  function HBlock(h: int, k: int, l: int): seq<Plane>
  {
    KBlock(-h, k, l) + KBlock(h, k, l)
  }

  /** `v`, negated when `negative`. */
  function Signed(negative: bool, v: int): int
  {
    if negative then -v else v
  }

  /** Component order `p` (0..5) of `(a, b, c)`, numbered as `itertools.permutations` does. */
  function Permute(p: nat, a: int, b: int, c: int): Plane
    requires p < 6
  {
    if p == 0 then (a, b, c)
    else if p == 1 then (a, c, b)
    else if p == 2 then (b, a, c)
    else if p == 3 then (b, c, a)
    else if p == 4 then (c, a, b)
    else (c, b, a)
  }

  lemma Perms6Index(a: int, b: int, c: int)
    ensures |Perms6(a, b, c)| == 6
    ensures forall p: nat :: p < 6 ==> Perms6(a, b, c)[p] == Permute(p, a, b, c)
  {
  }

  /**
   * The family of planes of a cubic Miller index: every sign flip of h, k, l
   * combined with every order of the three components.
   */
  function CubicFamily(h: int, k: int, l: int): set<Plane>
  {
    set sh: bool, sk: bool, sl: bool, p: nat | p < 6 :: Permute(p, Signed(sh, h), Signed(sk, k), Signed(sl, l))
  }

  function Elements(s: seq<Plane>): set<Plane>
  {
    set p | p in s
  }

  predicate NoDuplicates(s: seq<Plane>)
  {
    forall i, j :: 0 <= i < j < |s| ==> s[i] != s[j]
  }

  /** The six permutations of one sign choice. */
  function SignedPerms(h: int, k: int, l: int, sh: bool, sk: bool, sl: bool): seq<Plane>
  {
    Perms6(Signed(sh, h), Signed(sk, k), Signed(sl, l))
  }

  /** Whether sign choice `i` flips h, k, l: h changes slowest, and the flipped value comes first. */
  predicate NegH(i: nat) { i < 4 }
  predicate NegK(i: nat) { i % 4 < 2 }
  predicate NegL(i: nat) { i % 2 == 0 }

  /** Sign choice number `i` in the order the loops visit them (h outermost, negated first). */
  function Block(h: int, k: int, l: int, i: nat): seq<Plane>
    requires i < 8
  {
    SignedPerms(h, k, l, NegH(i), NegK(i), NegL(i))
  }

  function BlocksUpTo(h: int, k: int, l: int, n: nat): seq<Plane>
    requires n <= 8
  {
    if n == 0 then [] else BlocksUpTo(h, k, l, n - 1) + Block(h, k, l, n - 1)
  }

  lemma Regroup(b0: seq<Plane>, b1: seq<Plane>, b2: seq<Plane>, b3: seq<Plane>,
                b4: seq<Plane>, b5: seq<Plane>, b6: seq<Plane>, b7: seq<Plane>)
    ensures ((b0 + b1) + (b2 + b3)) + ((b4 + b5) + (b6 + b7))
         == ((((((b0 + b1) + b2) + b3) + b4) + b5) + b6) + b7
  {
  }

  lemma BlockValues(h: int, k: int, l: int)
    ensures Block(h, k, l, 0) == Perms6(-h, -k, -l) && Block(h, k, l, 1) == Perms6(-h, -k, l)
    ensures Block(h, k, l, 2) == Perms6(-h, k, -l) && Block(h, k, l, 3) == Perms6(-h, k, l)
    ensures Block(h, k, l, 4) == Perms6(h, -k, -l) && Block(h, k, l, 5) == Perms6(h, -k, l)
    ensures Block(h, k, l, 6) == Perms6(h, k, -l) && Block(h, k, l, 7) == Perms6(h, k, l)
  {
  }

  /** The 48 appended tuples are the eight sign blocks one after the other. */
  lemma HBlockIsBlocks(h: int, k: int, l: int)
    ensures HBlock(h, k, l) == BlocksUpTo(h, k, l, 8)
  {
    BlockValues(h, k, l);
    var b0, b1, b2, b3 := Block(h, k, l, 0), Block(h, k, l, 1), Block(h, k, l, 2), Block(h, k, l, 3);
    var b4, b5, b6, b7 := Block(h, k, l, 4), Block(h, k, l, 5), Block(h, k, l, 6), Block(h, k, l, 7);
    assert BlocksUpTo(h, k, l, 1) == b0;
    assert BlocksUpTo(h, k, l, 2) == b0 + b1;
    assert BlocksUpTo(h, k, l, 3) == (b0 + b1) + b2;
    assert BlocksUpTo(h, k, l, 4) == ((b0 + b1) + b2) + b3;
    assert BlocksUpTo(h, k, l, 5) == (((b0 + b1) + b2) + b3) + b4;
    assert BlocksUpTo(h, k, l, 6) == ((((b0 + b1) + b2) + b3) + b4) + b5;
    assert BlocksUpTo(h, k, l, 7) == (((((b0 + b1) + b2) + b3) + b4) + b5) + b6;
    assert BlocksUpTo(h, k, l, 8) == ((((((b0 + b1) + b2) + b3) + b4) + b5) + b6) + b7;
    assert HBlock(h, k, l) == ((b0 + b1) + (b2 + b3)) + ((b4 + b5) + (b6 + b7));
    Regroup(b0, b1, b2, b3, b4, b5, b6, b7);
  }

  lemma {:induction false} InBlocksUpTo(h: int, k: int, l: int, n: nat, q: Plane)
    requires n <= 8
    ensures q in BlocksUpTo(h, k, l, n) <==> exists i :: 0 <= i < n && q in Block(h, k, l, i)
  {
    if n > 0 {
      InBlocksUpTo(h, k, l, n - 1, q);
    }
  }

  /** Membership in one block, position by position. */
  lemma InBlock(h: int, k: int, l: int, i: nat, q: Plane)
    requires i < 8
    ensures q in Block(h, k, l, i) <==>
      exists p: nat :: p < 6 && q == Permute(p, Signed(NegH(i), h), Signed(NegK(i), k), Signed(NegL(i), l))
  {
    Perms6Index(Signed(NegH(i), h), Signed(NegK(i), k), Signed(NegL(i), l));
  }

  lemma PermuteInFamily(h: int, k: int, l: int, sh: bool, sk: bool, sl: bool, p: nat)
    requires p < 6
    ensures Permute(p, Signed(sh, h), Signed(sk, k), Signed(sl, l)) in CubicFamily(h, k, l)
  {
  }

  /** Every tuple the sign loops append belongs to the cubic family. */
  lemma HBlockInFamily(h: int, k: int, l: int, q: Plane)
    requires q in HBlock(h, k, l)
    ensures q in CubicFamily(h, k, l)
  {
    HBlockIsBlocks(h, k, l);
    InBlocksUpTo(h, k, l, 8, q);
    var i :| 0 <= i < 8 && q in Block(h, k, l, i);
    InBlock(h, k, l, i, q);
    var p: nat :| p < 6 && q == Permute(p, Signed(NegH(i), h), Signed(NegK(i), k), Signed(NegL(i), l));
    PermuteInFamily(h, k, l, NegH(i), NegK(i), NegL(i), p);
  }

  /** Every member of the cubic family is appended by the sign loops. */
  lemma FamilyInHBlock(h: int, k: int, l: int, q: Plane)
    requires q in CubicFamily(h, k, l)
    ensures q in HBlock(h, k, l)
  {
    HBlockIsBlocks(h, k, l);
    var sh: bool, sk: bool, sl: bool, p: nat :| p < 6 && q == Permute(p, Signed(sh, h), Signed(sk, k), Signed(sl, l));
    var i := (if sh then 0 else 4) + (if sk then 0 else 2) + (if sl then 0 else 1);
    assert sh == (i < 4) && sk == (i % 4 < 2) && sl == (i % 2 == 0);
    InBlock(h, k, l, i, q);
    InBlocksUpTo(h, k, l, 8, q);
  }

  /** The tuples appended by the sign loops are exactly the cubic family. */
  lemma HBlockIsFamily(h: int, k: int, l: int)
    ensures Elements(HBlock(h, k, l)) == CubicFamily(h, k, l)
  {
    forall q | q in HBlock(h, k, l) ensures q in CubicFamily(h, k, l) {
      HBlockInFamily(h, k, l, q);
    }
    forall q | q in CubicFamily(h, k, l) ensures q in HBlock(h, k, l) {
      FamilyInHBlock(h, k, l, q);
    }
  }

  /** The three nested sign loops of `get_planes`: flip h, then k, then l, appending the permutations each time. */
  method SignLoops(h0: int, k0: int, l0: int) returns (planes: seq<Plane>)
    ensures planes == HBlock(h0, k0, l0)
  {
    var h, k, l := h0, k0, l0;
    planes := [];
    for a := 0 to 2
      invariant h == (if a == 1 then -h0 else h0) && k == k0 && l == l0
      invariant planes == HPrefix(h0, k0, l0, a)
    {
      h := -h;
      var start := planes;
      for b := 0 to 2
        invariant k == (if b == 1 then -k0 else k0) && l == l0
        invariant planes == start + KPrefix(h, k0, l0, b)
      {
        k := -k;
        var start2 := planes;
        for c := 0 to 2
          invariant l == (if c == 1 then -l0 else l0)
          invariant planes == start2 + LPrefix(h, k, l0, c)
        {
          l := -l;
          planes := planes + Perms6(h, k, l);
          AppendAssoc(start2, LPrefix(h, k, l0, c), Perms6(h, k, l));
        }
        AppendAssoc(start, KPrefix(h, k0, l0, b), LBlock(h, k, l0));
      }
    }
  }

  /** What the innermost loop has appended after `c` of its two rounds. */
  function LPrefix(h: int, k: int, l: int, c: int): seq<Plane>
  {
    if c <= 0 then [] else if c == 1 then Perms6(h, k, -l) else LBlock(h, k, l)
  }

  function KPrefix(h: int, k: int, l: int, b: int): seq<Plane>
  {
    if b <= 0 then [] else if b == 1 then LBlock(h, -k, l) else KBlock(h, k, l)
  }

  function HPrefix(h: int, k: int, l: int, a: int): seq<Plane>
  {
    if a <= 0 then [] else if a == 1 then KBlock(-h, k, l) else HBlock(h, k, l)
  }

  lemma AppendAssoc(s: seq<Plane>, t: seq<Plane>, u: seq<Plane>)
    ensures (s + t) + u == s + (t + u)
  {
  }

  /** `list(set(planes))`: each distinct tuple once, in an order the model leaves open. */
  method ListOfSet(planes: seq<Plane>) returns (listed: seq<Plane>)
    ensures NoDuplicates(listed)
    ensures Elements(listed) == Elements(planes)
    ensures planes == [] ==> listed == []
  {
    var remaining := Elements(planes);
    listed := [];
    while remaining != {}
      invariant NoDuplicates(listed)
      invariant Elements(listed) !! remaining
      invariant Elements(listed) + remaining == Elements(planes)
      decreases |remaining|
    {
      var p :| p in remaining;
      listed := listed + [p];
      remaining := remaining - {p};
    }
    if listed != [] {
      assert listed[0] in Elements(planes);
    }
  }

  // ------------------------------------------------------- the HCP branch

  /** Component order `p` (0..23) of a 4-tuple, numbered as `itertools.permutations` does. */
  function Permute4(p: nat, item: (int, int, int, int)): (int, int, int, int)
    requires p < 24
  {
    var o := Orders4[p];
    (Pick(item, o.0), Pick(item, o.1), Pick(item, o.2), Pick(item, o.3))
  }

  /** The 24 orders of four positions, numbered as `itertools.permutations` does. */
  const Orders4: seq<(nat, nat, nat, nat)> :=
    [ (0,1,2,3), (0,1,3,2), (0,2,1,3), (0,2,3,1), (0,3,1,2), (0,3,2,1),
      (1,0,2,3), (1,0,3,2), (1,2,0,3), (1,2,3,0), (1,3,0,2), (1,3,2,0),
      (2,0,1,3), (2,0,3,1), (2,1,0,3), (2,1,3,0), (2,3,0,1), (2,3,1,0),
      (3,0,1,2), (3,0,2,1), (3,1,0,2), (3,1,2,0), (3,2,0,1), (3,2,1,0) ]

  /** Component `j` (0..3) of a 4-tuple. */
  function Pick(item: (int, int, int, int), j: nat): int
  {
    if j == 0 then item.0 else if j == 1 then item.1 else if j == 2 then item.2 else item.3
  }

  /**
   * Sign round `i` (0..15) and permutation `p` (0..23) of the HCP branch, as
   * the tuple it computes before dividing. The four sign loops flip H
   * (outermost), K, I and L, each negated on its first pass. The
   * Miller-Bravais components are kept times 3 (3H = 2h - k, 3K = 2k - h,
   * 3I = -(3H + 3K), 3L = 3l), so `int((item[0] - item[2]) * 3)` is the
   * difference of two scaled items.
   */
  function HexRound(h: int, k: int, l: int, i: nat, p: nat): (int, int, int)
    requires i < 16 && p < 24
  {
    Difference(Permute4(p, SignedItems(h, k, l, SignsOf(i))))
  }

  /** The four scaled Miller-Bravais components with sign round `i` applied. */
  function SignedItems(h: int, k: int, l: int, negate: (bool, bool, bool, bool)): (int, int, int, int)
  {
    var a, b := 2 * h - k, 2 * k - h;
    (Signed(negate.0, a), Signed(negate.1, b), Signed(negate.2, -(a + b)), Signed(negate.3, 3 * l))
  }

  /** Which of H, K, I, L sign round `i` negates: H changes slowest, and each loop negates first. */
  function SignsOf(i: nat): (bool, bool, bool, bool)
    requires i < 16
  {
    (i < 8, i % 8 < 4, i % 4 < 2, i % 2 == 0)
  }

  function Flip(negate: (bool, bool, bool, bool)): (bool, bool, bool, bool)
  {
    (!negate.0, !negate.1, !negate.2, !negate.3)
  }

  /** `(item[0] - item[2], item[1] - item[2], item[3])`, kept times 3. */
  function Difference(item: (int, int, int, int)): (int, int, int)
  {
    (item.0 - item.2, item.1 - item.2, item.3)
  }

  /** `hcf(hcf(abs(h), abs(k)), abs(l))` of a tuple. */
  function Divisor(t: (int, int, int)): int
  {
    HcfOf(HcfOf(Abs(t.0), Abs(t.1)), Abs(t.2))
  }

  /** The tuple divided by its divisor (the division is exact: `DivisorDivides`). */
  function Reduce(t: (int, int, int)): Plane
    requires Divisor(t) != 0
  {
    var g := Divisor(t);
    (t.0 / g, t.1 / g, t.2 / g)
  }

  /** Some round's divisor is zero, and `h /= divisor` raises ZeroDivisionError. */
  predicate HexRaises(h: int, k: int, l: int)
  {
    exists i: nat, p: nat :: i < 16 && p < 24 && Divisor(HexRound(h, k, l, i, p)) == 0
  }

  /** The family of an HCP index: the reduced tuples of all rounds. */
  function HexFamily(h: int, k: int, l: int): set<Plane>
  {
    set i: nat, p: nat | i < 16 && p < 24 && Divisor(HexRound(h, k, l, i, p)) != 0 :: Reduce(HexRound(h, k, l, i, p))
  }

  /** Round (i', p') comes before round (i, p). */
  predicate Before(i': nat, p': nat, i: nat, p: nat)
  {
    i' < i || (i' == i && p' < p)
  }

  /** No round before (i, p) has a zero divisor. */
  predicate HexClear(h: int, k: int, l: int, i: nat, p: nat)
  {
    forall i': nat, p': nat :: i' < 16 && p' < 24 && Before(i', p', i, p) ==> Divisor(HexRound(h, k, l, i', p')) != 0
  }

  /** The reduced tuples of the rounds before (i, p), in order. */
  function HexPrefix(h: int, k: int, l: int, i: nat, p: nat): seq<Plane>
    requires i < 16 && p <= 24 && HexClear(h, k, l, i, p)
    decreases i, p
  {
    if p > 0 then HexPrefix(h, k, l, i, p - 1) + [Reduce(HexRound(h, k, l, i, p - 1))]
    else if i > 0 then HexPrefix(h, k, l, i - 1, 24)
    else []
  }

  /** Some round before (i, p) reduces to q. */
  predicate ListedBefore(h: int, k: int, l: int, i: nat, p: nat, q: Plane)
  {
    exists i': nat, p': nat :: i' < 16 && p' < 24 && Before(i', p', i, p) && Divisor(HexRound(h, k, l, i', p')) != 0 &&
      q == Reduce(HexRound(h, k, l, i', p'))
  }

  /** The rounds before (i, p + 1) are those before (i, p) and (i, p) itself. */
  lemma ListedBeforeStep(h: int, k: int, l: int, i: nat, p: nat, q: Plane)
    requires i < 16 && p < 24 && Divisor(HexRound(h, k, l, i, p)) != 0
    ensures ListedBefore(h, k, l, i, p + 1, q) <==>
      ListedBefore(h, k, l, i, p, q) || q == Reduce(HexRound(h, k, l, i, p))
  {
    if ListedBefore(h, k, l, i, p + 1, q) {
      var i': nat, p': nat :| i' < 16 && p' < 24 && Before(i', p', i, p + 1) && Divisor(HexRound(h, k, l, i', p')) != 0 &&
        q == Reduce(HexRound(h, k, l, i', p'));
      if !(i' == i && p' == p) {
        assert Before(i', p', i, p);
      }
    }
    if ListedBefore(h, k, l, i, p, q) {
      var i': nat, p': nat :| i' < 16 && p' < 24 && Before(i', p', i, p) && Divisor(HexRound(h, k, l, i', p')) != 0 &&
        q == Reduce(HexRound(h, k, l, i', p'));
      assert Before(i', p', i, p + 1);
    }
    if q == Reduce(HexRound(h, k, l, i, p)) {
      assert Before(i, p, i, p + 1);
    }
  }

  /** The rounds before (i + 1, 0) are those before (i, 24). */
  lemma ListedBeforeRound(h: int, k: int, l: int, i: nat, q: Plane)
    ensures ListedBefore(h, k, l, i + 1, 0, q) <==> ListedBefore(h, k, l, i, 24, q)
  {
    if ListedBefore(h, k, l, i, 24, q) {
      var i': nat, p': nat :| i' < 16 && p' < 24 && Before(i', p', i, 24) && Divisor(HexRound(h, k, l, i', p')) != 0 &&
        q == Reduce(HexRound(h, k, l, i', p'));
      assert Before(i', p', i + 1, 0);
    }
    if ListedBefore(h, k, l, i + 1, 0, q) {
      var i': nat, p': nat :| i' < 16 && p' < 24 && Before(i', p', i + 1, 0) && Divisor(HexRound(h, k, l, i', p')) != 0 &&
        q == Reduce(HexRound(h, k, l, i', p'));
      assert Before(i', p', i, 24);
    }
  }

  lemma {:induction false} InHexPrefix(h: int, k: int, l: int, i: nat, p: nat, q: Plane)
    requires i < 16 && p <= 24 && HexClear(h, k, l, i, p)
    ensures q in HexPrefix(h, k, l, i, p) <==> ListedBefore(h, k, l, i, p, q)
    decreases i, p
  {
    if p > 0 {
      InHexPrefix(h, k, l, i, p - 1, q);
      ListedBeforeStep(h, k, l, i, p - 1, q);
    } else if i > 0 {
      InHexPrefix(h, k, l, i - 1, 24, q);
      ListedBeforeRound(h, k, l, i - 1, q);
    }
  }

  /** Finishing sign round i clears every round before the next one. */
  lemma ClearNextRound(h: int, k: int, l: int, i: nat)
    requires HexClear(h, k, l, i, 24)
    ensures HexClear(h, k, l, i + 1, 0)
  {
    forall i': nat, p': nat | i' < 16 && p' < 24 && Before(i', p', i + 1, 0)
      ensures Divisor(HexRound(h, k, l, i', p')) != 0
    {
      assert Before(i', p', i, 24);
    }
  }

  /** A nonzero divisor at (i, p) clears the rounds up to and including it. */
  lemma ClearNextPermutation(h: int, k: int, l: int, i: nat, p: nat)
    requires i < 16 && p < 24 && HexClear(h, k, l, i, p) && Divisor(HexRound(h, k, l, i, p)) != 0
    ensures HexClear(h, k, l, i, p + 1)
  {
    forall i': nat, p': nat | i' < 16 && p' < 24 && Before(i', p', i, p + 1)
      ensures Divisor(HexRound(h, k, l, i', p')) != 0
    {
      if !(i' == i && p' == p) {
        assert Before(i', p', i, p);
      }
    }
  }

  /** A zero divisor at (i, p) is a raising round. */
  lemma RaisesAt(h: int, k: int, l: int, i: nat, p: nat)
    requires i < 16 && p < 24 && Divisor(HexRound(h, k, l, i, p)) == 0
    ensures HexRaises(h, k, l)
  {
  }

  /** Without a zero divisor the rounds list exactly the family. */
  lemma HexPrefixFamily(h: int, k: int, l: int)
    requires HexClear(h, k, l, 15, 24)
    ensures !HexRaises(h, k, l)
    ensures Elements(HexPrefix(h, k, l, 15, 24)) == HexFamily(h, k, l)
  {
    forall q | q in HexPrefix(h, k, l, 15, 24)
      ensures q in HexFamily(h, k, l)
    {
      InHexPrefix(h, k, l, 15, 24, q);
    }
    forall q | q in HexFamily(h, k, l)
      ensures q in HexPrefix(h, k, l, 15, 24)
    {
      var i: nat, p: nat :| i < 16 && p < 24 && Divisor(HexRound(h, k, l, i, p)) != 0 && q == Reduce(HexRound(h, k, l, i, p));
      assert Before(i, p, 15, 24);
      assert ListedBefore(h, k, l, 15, 24, q);
      InHexPrefix(h, k, l, 15, 24, q);
    }
  }

  /**
   * The HCP branch's loops: each round's tuple divided by the `hcf` of its
   * absolute components, raising ZeroDivisionError at the first round where
   * that is zero. The four nested sign loops run here as one loop over their
   * 16 rounds, in the same order, around the permutation loop.
   */
  method HexLoops(h: int, k: int, l: int) returns (r: Outcome<seq<Plane>>)
    ensures r.Raised? <==> HexRaises(h, k, l)
    ensures r.Raised? ==> r.error == "ZeroDivisionError"
    ensures r.Ok? ==> Elements(r.value) == HexFamily(h, k, l)
    ensures !r.NonFinite?
  {
    var planes: seq<Plane> := [];
    for i := 0 to 16
      invariant HexClear(h, k, l, i, 0)
      invariant i < 16 ==> planes == HexPrefix(h, k, l, i, 0)
      invariant i == 16 ==> planes == HexPrefix(h, k, l, 15, 24)
    {
      for p := 0 to 24
        invariant HexClear(h, k, l, i, p)
        invariant planes == HexPrefix(h, k, l, i, p)
      {
        var t := HexRound(h, k, l, i, p);
        var g1 := Hcf(Abs(t.0), Abs(t.1));
        var g := Hcf(g1, Abs(t.2));
        assert g == Divisor(t);
        if g == 0 {
          RaisesAt(h, k, l, i, p);
          return Raised("ZeroDivisionError");
        }
        ClearNextPermutation(h, k, l, i, p);
        planes := planes + [Reduce(t)];
      }
      ClearNextRound(h, k, l, i);
    }
    HexPrefixFamily(h, k, l);
    return Ok(planes);
  }

  lemma {:induction false} MulAtLeast(g: int, e: int)
    requires g > 0 && e >= 1
    ensures g * e >= g
    decreases e
  {
    if e > 1 {
      MulAtLeast(g, e - 1);
      assert g * e == g * (e - 1) + g;
    }
  }

  lemma {:induction false} MulAtMost(g: int, e: int)
    requires g > 0 && e <= -1
    ensures g * e <= -g
    decreases -e
  {
    if e < -1 {
      MulAtMost(g, e + 1);
      assert g * e == g * (e + 1) - g;
    }
  }

  /** Dividing a multiple of a positive g by g gives the factor back. */
  lemma DivOfMultiple(g: int, q: int)
    requires g > 0
    ensures (g * q) / g == q
  {
    var x := g * q;
    var d, m := x / g, x % g;
    assert g * (q - d) == m;
    if q - d >= 1 {
      MulAtLeast(g, q - d);
    } else if q - d <= -1 {
      MulAtMost(g, q - d);
    }
  }

  lemma ExactQuotient(g: int, x: int)
    requires g > 0 && Divides(g, Abs(x))
    ensures (x / g) * g == x
  {
    var q :| Mul(g, q) == Abs(x);
    var q' := if x >= 0 then q else -q;
    assert x == g * q';
    DivOfMultiple(g, q');
  }

  /** The divisor, when not zero, is positive and divides every component: `h / divisor` is exact. */
  lemma DivisorDivides(t: (int, int, int))
    requires Divisor(t) != 0
    ensures Divisor(t) > 0
    ensures Reduce(t).0 * Divisor(t) == t.0 && Reduce(t).1 * Divisor(t) == t.1 && Reduce(t).2 * Divisor(t) == t.2
  {
    var g1 := HcfOf(Abs(t.0), Abs(t.1));
    HcfOfDivisors(Abs(t.0), Abs(t.1), 1);
    var g := Divisor(t);
    HcfOfDivisors(g1, Abs(t.2), 1);
    assert Mul(g, 1) == g;
    HcfOfDivisors(g1, Abs(t.2), g);
    HcfOfDivisors(Abs(t.0), Abs(t.1), g);
    ExactQuotient(g, t.0);
    ExactQuotient(g, t.1);
    ExactQuotient(g, t.2);
  }

  /** Negating a tuple keeps its divisor and negates its reduction. */
  lemma ReduceNegated(t: (int, int, int))
    requires Divisor(t) != 0
    ensures Divisor(Inverted(t)) == Divisor(t)
    ensures Reduce(Inverted(t)) == Inverted(Reduce(t))
  {
    DivisorDivides(t);
    var g := Divisor(t);
    var n := Inverted(t);
    assert Abs(n.0) == Abs(t.0) && Abs(n.1) == Abs(t.1) && Abs(n.2) == Abs(t.2);
    assert n.0 == g * -Reduce(t).0 && n.1 == g * -Reduce(t).1 && n.2 == g * -Reduce(t).2;
    DivOfMultiple(g, -Reduce(t).0);
    DivOfMultiple(g, -Reduce(t).1);
    DivOfMultiple(g, -Reduce(t).2);
  }

  lemma PermuteNegated(p: nat, a: int, b: int, c: int)
    requires p < 6
    ensures var t := Permute(p, a, b, c); Permute(p, -a, -b, -c) == (-t.0, -t.1, -t.2)
  {
  }

  /** The opposite plane: every index negated. */
  function Inverted(t: (int, int, int)): (int, int, int)
  {
    (-t.0, -t.1, -t.2)
  }

  /** Every component negated. */
  function Negate4(item: (int, int, int, int)): (int, int, int, int)
  {
    (-item.0, -item.1, -item.2, -item.3)
  }

  lemma PickNegated(item: (int, int, int, int), j: nat)
    ensures Pick(Negate4(item), j) == -Pick(item, j)
  {
  }

  lemma Permute4Negated(p: nat, item: (int, int, int, int))
    requires p < 24
    ensures Permute4(p, Negate4(item)) == Negate4(Permute4(p, item))
  {
    var o := Orders4[p];
    PickNegated(item, o.0);
    PickNegated(item, o.1);
    PickNegated(item, o.2);
    PickNegated(item, o.3);
  }

  /** Sign round 15 - i negates exactly the components sign round i keeps. */
  lemma OppositeSigns(i: nat)
    requires i < 16
    ensures SignsOf(15 - i) == Flip(SignsOf(i))
  {
  }

  /** Sign round 15 - i negates every signed component of round i. */
  lemma SignedItemsOpposite(h: int, k: int, l: int, negate: (bool, bool, bool, bool))
    ensures SignedItems(h, k, l, Flip(negate)) == Negate4(SignedItems(h, k, l, negate))
  {
  }

  /** The round with every sign loop on its other side computes the negated tuple. */
  lemma HexRoundOpposite(h: int, k: int, l: int, i: nat, p: nat)
    requires i < 16 && p < 24
    ensures HexRound(h, k, l, 15 - i, p) == Inverted(HexRound(h, k, l, i, p))
  {
    OppositeSigns(i);
    SignedItemsOpposite(h, k, l, SignsOf(i));
    RoundNegated(p, SignedItems(h, k, l, SignsOf(i)));
  }

  lemma RoundNegated(p: nat, x: (int, int, int, int))
    requires p < 24
    ensures Difference(Permute4(p, Negate4(x))) == Inverted(Difference(Permute4(p, x)))
  {
    Permute4Negated(p, x);
    DifferenceNegated(Permute4(p, x));
  }

  lemma DifferenceNegated(item: (int, int, int, int))
    ensures Difference(Negate4(item)) == Inverted(Difference(item))
  {
  }

  /** A round with a nonzero divisor contributes its reduction to the family. */
  lemma InHexFamily(h: int, k: int, l: int, i: nat, p: nat)
    requires i < 16 && p < 24 && Divisor(HexRound(h, k, l, i, p)) != 0
    ensures Reduce(HexRound(h, k, l, i, p)) in HexFamily(h, k, l)
  {
  }

  /** Every member of the family is the reduction of some round. */
  lemma HexMember(h: int, k: int, l: int, q: Plane) returns (i: nat, p: nat)
    requires q in HexFamily(h, k, l)
    ensures i < 16 && p < 24 && Divisor(HexRound(h, k, l, i, p)) != 0 && q == Reduce(HexRound(h, k, l, i, p))
  {
    i, p :| i < 16 && p < 24 && Divisor(HexRound(h, k, l, i, p)) != 0 && q == Reduce(HexRound(h, k, l, i, p));
  }

  /** The HCP family is closed under inversion: with (h', k', l') it holds (-h', -k', -l'). */
  lemma HexFamilyInversion(h: int, k: int, l: int, q: Plane)
    requires q in HexFamily(h, k, l)
    ensures Inverted(q) in HexFamily(h, k, l)
  {
    var i, p := HexMember(h, k, l, q);
    var t := HexRound(h, k, l, i, p);
    HexRoundOpposite(h, k, l, i, p);
    ReduceNegated(t);
    InHexFamily(h, k, l, 15 - i, p);
  }

  /** Index 000 raises ZeroDivisionError: every round's tuple is zero. */
  lemma HexRaisesAtZero()
    ensures HexRaises(0, 0, 0)
  {
    assert Divisor(HexRound(0, 0, 0, 0, 0)) == 0;
  }

  /**
   * So does 121: with k = 2h, 3H is 0 while 3K = 3, 3I = -3 and 3L = 3, and the
   * round that negates I alone and puts H last (sign round 5, permutation 9)
   * is (0, 0, 0).
   */
  lemma HexRaisesAt121()
    ensures HexRaises(1, 2, 1)
  {
    assert HexRound(1, 2, 1, 5, 9) == (0, 0, 0);
    assert Divisor(HexRound(1, 2, 1, 5, 9)) == 0;
  }

  /** What `get_planes` yields, as a set, or the exception it raises. */
  function PlanesOf(index: string, structure: string): Outcome<set<Plane>>
  {
    match ParseIndexChars(index)
    case None => Raised(GetPlanesError(index))
    case Some(hkl) =>
      if structure == "FCC" || structure == "BCC" then Ok(CubicFamily(hkl.0, hkl.1, hkl.2))
      else if structure == "HCP" then
        if HexRaises(hkl.0, hkl.1, hkl.2) then Raised("ZeroDivisionError") else Ok(HexFamily(hkl.0, hkl.1, hkl.2))
      else Ok({})
  }

  /**
   * `get_planes(index, structure)`. For 'FCC' and 'BCC' the sign loops append
   * all permutations of every flipped triple; for 'HCP' the four-index loops
   * append the reduced tuples or raise; any other structure appends nothing.
   * `list(set(...))` then removes the duplicates. Reading the index raises
   * IndexError or ValueError.
   */
  method GetPlanes(index: string, structure: string) returns (r: Outcome<seq<Plane>>)
    ensures r.Ok? <==> PlanesOf(index, structure).Ok?
    ensures r.Raised? ==> PlanesOf(index, structure) == Raised(r.error)
    ensures r.Ok? ==> NoDuplicates(r.value) && Elements(r.value) == PlanesOf(index, structure).value
  {
    var parsed := ParseIndexChars(index);
    if parsed.None? {
      return Raised(GetPlanesError(index));
    }
    var (h, k, l) := parsed.value;
    var planes: seq<Plane> := [];
    if structure == "BCC" || structure == "FCC" {
      planes := SignLoops(h, k, l);
      HBlockIsFamily(h, k, l);
    } else if structure == "HCP" {
      var hex := HexLoops(h, k, l);
      if hex.Raised? {
        return Raised(hex.error);
      }
      planes := hex.value;
    }
    var listed := ListOfSet(planes);
    return Ok(listed);
  }

  // ------------------------------------------- family sizes (48 / 8 / 6)

  function Abs(x: int): nat
  {
    if x < 0 then -x else x
  }

  /** With distinct, nonzero |h|, |k|, |l| two positions of HBlock never hold the same tuple. */
  lemma PermuteInjective(h: int, k: int, l: int, p1: nat, s1: bool, t1: bool, u1: bool,
                         p2: nat, s2: bool, t2: bool, u2: bool)
    requires h != 0 && k != 0 && l != 0
    requires Abs(h) != Abs(k) && Abs(k) != Abs(l) && Abs(h) != Abs(l)
    requires p1 < 6 && p2 < 6
    requires Permute(p1, Signed(s1, h), Signed(t1, k), Signed(u1, l))
          == Permute(p2, Signed(s2, h), Signed(t2, k), Signed(u2, l))
    ensures p1 == p2 && s1 == s2 && t1 == t2 && u1 == u2
  {
  }

  lemma BlockNoDuplicates(h: int, k: int, l: int, i: nat)
    requires h != 0 && k != 0 && l != 0
    requires Abs(h) != Abs(k) && Abs(k) != Abs(l) && Abs(h) != Abs(l)
    requires i < 8
    ensures NoDuplicates(Block(h, k, l, i))
  {
    var sh, sk, sl := NegH(i), NegK(i), NegL(i);
    Perms6Index(Signed(sh, h), Signed(sk, k), Signed(sl, l));
    forall p: nat, p2: nat | p < p2 < 6
      ensures Block(h, k, l, i)[p] != Block(h, k, l, i)[p2]
    {
      if Block(h, k, l, i)[p] == Block(h, k, l, i)[p2] {
        PermuteInjective(h, k, l, p, sh, sk, sl, p2, sh, sk, sl);
      }
    }
  }

  lemma BlocksDisjoint(h: int, k: int, l: int, i: nat, j: nat, q: Plane)
    requires h != 0 && k != 0 && l != 0
    requires Abs(h) != Abs(k) && Abs(k) != Abs(l) && Abs(h) != Abs(l)
    requires i < j < 8
    requires q in Block(h, k, l, i)
    ensures q !in Block(h, k, l, j)
  {
    InBlock(h, k, l, i, q);
    InBlock(h, k, l, j, q);
    var p: nat :| p < 6 && q == Permute(p, Signed(NegH(i), h), Signed(NegK(i), k), Signed(NegL(i), l));
    if q in Block(h, k, l, j) {
      var p2: nat :| p2 < 6 && q == Permute(p2, Signed(NegH(j), h), Signed(NegK(j), k), Signed(NegL(j), l));
      PermuteInjective(h, k, l, p, NegH(i), NegK(i), NegL(i), p2, NegH(j), NegK(j), NegL(j));
    }
  }

  lemma {:induction false} BlocksNoDuplicates(h: int, k: int, l: int, n: nat)
    requires h != 0 && k != 0 && l != 0
    requires Abs(h) != Abs(k) && Abs(k) != Abs(l) && Abs(h) != Abs(l)
    requires n <= 8
    ensures NoDuplicates(BlocksUpTo(h, k, l, n))
  {
    if n > 0 {
      BlocksNoDuplicates(h, k, l, n - 1);
      var front, last := BlocksUpTo(h, k, l, n - 1), Block(h, k, l, n - 1);
      BlockNoDuplicates(h, k, l, n - 1);
      forall q | q in front ensures q !in last {
        InBlocksUpTo(h, k, l, n - 1, q);
        var i :| 0 <= i < n - 1 && q in Block(h, k, l, i);
        BlocksDisjoint(h, k, l, i, n - 1, q);
      }
      NoDuplicatesAppend(front, last);
    }
  }

  lemma NoDuplicatesAppend(front: seq<Plane>, last: seq<Plane>)
    requires NoDuplicates(front) && NoDuplicates(last)
    requires forall q :: q in front ==> q !in last
    ensures NoDuplicates(front + last)
  {
    var s := front + last;
    forall a, b | 0 <= a < b < |s| ensures s[a] != s[b] {
      if b >= |front| && a < |front| {
        assert s[a] in front && s[b] in last;
      } else if a >= |front| {
        assert s[a] == last[a - |front|] && s[b] == last[b - |front|];
      }
    }
  }

  lemma {:induction false} NoDuplicatesCard(s: seq<Plane>)
    requires NoDuplicates(s)
    ensures |Elements(s)| == |s|
  {
    if s != [] {
      var n := |s|;
      NoDuplicatesCard(s[..n - 1]);
      assert Elements(s) == Elements(s[..n - 1]) + {s[n - 1]};
      assert s[n - 1] !in Elements(s[..n - 1]);
    }
  }

  /** An index with distinct nonzero |h|, |k|, |l| has 48 planes in its family. */
  lemma FamilyOf48(h: int, k: int, l: int)
    requires h != 0 && k != 0 && l != 0
    requires Abs(h) != Abs(k) && Abs(k) != Abs(l) && Abs(h) != Abs(l)
    ensures |CubicFamily(h, k, l)| == 48
  {
    HBlockIsFamily(h, k, l);
    HBlockIsBlocks(h, k, l);
    BlocksNoDuplicates(h, k, l, 8);
    NoDuplicatesCard(HBlock(h, k, l));
  }

  lemma EightSigns()
    ensures |{(1, 1, 1), (1, 1, -1), (1, -1, 1), (1, -1, -1), (-1, 1, 1), (-1, 1, -1), (-1, -1, 1), (-1, -1, -1)}| == 8
  {
    var s4: set<Plane> := {(1, 1, 1), (1, 1, -1), (1, -1, 1), (1, -1, -1)};
    var t4: set<Plane> := {(-1, 1, 1), (-1, 1, -1), (-1, -1, 1), (-1, -1, -1)};
    assert |s4| == 4 && |t4| == 4;
    assert s4 !! t4;
    assert s4 + t4 == {(1, 1, 1), (1, 1, -1), (1, -1, 1), (1, -1, -1), (-1, 1, 1), (-1, 1, -1), (-1, -1, 1), (-1, -1, -1)};
  }

  /** The (1,1,1) family: the eight sign vectors. */
  lemma FamilyOf111()
    ensures CubicFamily(1, 1, 1)
         == {(1, 1, 1), (1, 1, -1), (1, -1, 1), (1, -1, -1), (-1, 1, 1), (-1, 1, -1), (-1, -1, 1), (-1, -1, -1)}
    ensures |CubicFamily(1, 1, 1)| == 8
  {
    var s := {(1, 1, 1), (1, 1, -1), (1, -1, 1), (1, -1, -1), (-1, 1, 1), (-1, 1, -1), (-1, -1, 1), (-1, -1, -1)};
    forall q | q in CubicFamily(1, 1, 1) ensures q in s {
      var sh: bool, sk: bool, sl: bool, p: nat :| p < 6 && q == Permute(p, Signed(sh, 1), Signed(sk, 1), Signed(sl, 1));
      assert (q.0 == 1 || q.0 == -1) && (q.1 == 1 || q.1 == -1) && (q.2 == 1 || q.2 == -1);
    }
    EightSigns();
    forall q | q in s ensures q in CubicFamily(1, 1, 1) {
      assert Permute(0, Signed(q.0 < 0, 1), Signed(q.1 < 0, 1), Signed(q.2 < 0, 1)) == q;
      PermuteInFamily(1, 1, 1, q.0 < 0, q.1 < 0, q.2 < 0, 0);
    }
  }

  lemma SixAxes()
    ensures |{(1, 0, 0), (-1, 0, 0), (0, 1, 0), (0, -1, 0), (0, 0, 1), (0, 0, -1)}| == 6
  {
    var s3: set<Plane> := {(1, 0, 0), (-1, 0, 0), (0, 1, 0)};
    var t3: set<Plane> := {(0, -1, 0), (0, 0, 1), (0, 0, -1)};
    assert |s3| == 3 && |t3| == 3;
    assert s3 !! t3;
    assert s3 + t3 == {(1, 0, 0), (-1, 0, 0), (0, 1, 0), (0, -1, 0), (0, 0, 1), (0, 0, -1)};
  }

  /** The (1,0,0) family: the six axis directions (a zero keeps its sign). */
  lemma FamilyOf100()
    ensures CubicFamily(1, 0, 0) == {(1, 0, 0), (-1, 0, 0), (0, 1, 0), (0, -1, 0), (0, 0, 1), (0, 0, -1)}
    ensures |CubicFamily(1, 0, 0)| == 6
  {
    var s := {(1, 0, 0), (-1, 0, 0), (0, 1, 0), (0, -1, 0), (0, 0, 1), (0, 0, -1)};
    forall q | q in CubicFamily(1, 0, 0) ensures q in s {
      var sh: bool, sk: bool, sl: bool, p: nat :| p < 6 && q == Permute(p, Signed(sh, 1), Signed(sk, 0), Signed(sl, 0));
      assert (q.0 == 0 && q.1 == 0) || (q.0 == 0 && q.2 == 0) || (q.1 == 0 && q.2 == 0);
      assert Abs(q.0) + Abs(q.1) + Abs(q.2) == 1;
    }
    SixAxes();
    forall q | q in s ensures q in CubicFamily(1, 0, 0) {
      var neg := q.0 + q.1 + q.2 < 0;
      var p := if q.0 != 0 then 0 else if q.1 != 0 then 2 else 3;
      assert Permute(p, Signed(neg, 1), Signed(false, 0), Signed(false, 0)) == q;
      PermuteInFamily(1, 0, 0, neg, false, false, p);
    }
  }

  // ------------------------------------------------------------ make_grid

  /** Product of the lengths of `args[j..]`. */
  function SuffixProd(args: seq<seq<int>>, j: nat): nat
    decreases |args| - j
  {
    if j >= |args| then 1 else |args[j]| * SuffixProd(args, j + 1)
  }

  /** Mixed-radix digit `j` of row `i`: the last argument varies fastest. */
  function GridValue(args: seq<seq<int>>, i: nat, j: nat): int
    requires j < |args|
  {
    var p := SuffixProd(args, j + 1);
    if |args[j]| == 0 || p == 0 then 0 else args[j][(i / p) % |args[j]|]
  }

  /** Python's float `x % y` for y > 0: x - y * floor(x / y). */
  function FloatMod(x: real, y: real): (m: real)
    requires y > 0.0
    ensures 0.0 <= m < y
  {
    FloatModBounds(x, y);
    x - y * (x / y).Floor as real
  }

  lemma FloatModBounds(x: real, y: real)
    requires y > 0.0
    ensures 0.0 <= x - y * (x / y).Floor as real < y
  {
    ScaledFloor(x, y, x / y, (x / y).Floor as real);
  }

  lemma ScaledFloor(x: real, y: real, q: real, f: real)
    requires y > 0.0 && y * q == x && f <= q < f + 1.0
    ensures 0.0 <= x - y * f
    ensures x - y * f < y
  {
    var d, e := q - f, f + 1.0 - q;
    assert y * d >= 0.0 && y * e > 0.0;
    assert y * d == y * q - y * f;
    assert y * e == y * f + y - y * q;
    assert x - y * f == y * d;
  }

  lemma FloorIs(x: real, k: int)
    requires k as real <= x < k as real + 1.0
    ensures x.Floor == k
  {
  }

  lemma FractionSplit(i: nat, p: nat)
    requires p > 0
    ensures i as real / p as real == (i / p) as real + (i % p) as real / p as real
    ensures 0.0 <= (i % p) as real / p as real < 1.0
  {
    var q, r := i / p, i % p;
    assert i == q * p + r;
    assert i as real == q as real * p as real + r as real;
  }

  lemma FractionBelowOne(a: real, n: real)
    requires 0.0 <= a < n
    ensures 0.0 <= a / n < 1.0
  {
    assert (a / n) * n == a;
  }

  lemma FloatModOfSplit(q: nat, f: real, n: nat)
    requires n > 0 && 0.0 <= f < 1.0
    ensures FloatMod(q as real + f, n as real) == (q % n) as real + f
  {
    var q1, q2 := q / n, q % n;
    var x := q as real + f;
    assert q as real == q1 as real * n as real + q2 as real by {
      assert q == q1 * n + q2;
    }
    assert x / n as real == q1 as real + (q2 as real + f) / n as real;
    assert q2 as real + f < q2 as real + 1.0 <= n as real;
    FractionBelowOne(q2 as real + f, n as real);
    FloorIs(x / n as real, q1);
  }

  /**
   * The digit `int(index % n)` computed on the float `index = i / P` equals the
   * integer digit `(i // P) % n`: the fractional part of i / P never reaches the
   * next digit.
   */
  lemma FloatDigit(i: nat, p: nat, n: nat)
    requires p > 0 && n > 0
    ensures Trunc(FloatMod(i as real / p as real, n as real)) == (i / p) % n
  {
    FractionSplit(i, p);
    var f := (i % p) as real / p as real;
    FloatModOfSplit(i / p, f, n);
    FloorIs(((i / p) % n) as real + f, (i / p) % n);
  }

  /** Dividing the float index once more by n is dividing i by the longer product. */
  lemma FloatIndexStep(i: nat, p: nat, n: nat)
    requires p > 0 && n > 0
    ensures (i as real / p as real) / n as real == i as real / (n * p) as real
  {
    assert (n * p) as real == n as real * p as real;
  }

  /**
   * `make_grid(*args)`: the grid has one row per combination of the arguments'
   * entries and row i, column j holds digit j of i in the mixed radix whose
   * last argument varies fastest. The source keeps `index` as a float (`/=`)
   * and reads the digit as `int(index % len(args[j]))`; the model does the same
   * on reals.
   */
  method MakeGrid(args: seq<seq<int>>) returns (result: array2<int>)
    ensures fresh(result)
    ensures result.Length0 == SuffixProd(args, 0) && result.Length1 == |args|
    ensures forall i, j :: 0 <= i < result.Length0 && 0 <= j < |args| ==> result[i, j] == GridValue(args, i, j)
  {
    var numPermut := SuffixProd(args, 0);
    result := new int[numPermut, |args|];
    for i := 0 to numPermut
      invariant forall i', j :: 0 <= i' < i && 0 <= j < |args| ==> result[i', j] == GridValue(args, i', j)
    {
      var index: real := i as real;
      var j := |args|;
      while j > 0
        invariant 0 <= j <= |args|
        invariant SuffixProd(args, j) > 0
        invariant index == i as real / SuffixProd(args, j) as real
        invariant forall j' :: j <= j' < |args| ==> result[i, j'] == GridValue(args, i, j')
        invariant forall i', j' :: 0 <= i' < i && 0 <= j' < |args| ==> result[i', j'] == GridValue(args, i', j')
      {
        j := j - 1;
        ZeroProdPropagates(args, j);
        var n := |args[j]|;
        ghost var p := SuffixProd(args, j + 1);
        PositiveFactors(n, p);
        var sub := Trunc(FloatMod(index, n as real));
        FloatDigit(i, p, n);
        result[i, j] := args[j][sub];
        FloatIndexStep(i, p, n);
        index := index / n as real;
      }
    }
  }

  lemma PositiveFactors(n: nat, p: nat)
    requires n * p > 0
    ensures n > 0 && p > 0
  {
  }

  /** A zero somewhere in a suffix makes the whole product zero. */
  lemma {:induction false} ZeroProdPropagates(args: seq<seq<int>>, j: nat)
    requires j < |args|
    ensures SuffixProd(args, j) == 0 ==> SuffixProd(args, 0) == 0
    ensures SuffixProd(args, j) == |args[j]| * SuffixProd(args, j + 1)
    decreases j
  {
    if j > 0 {
      ZeroProdPropagates(args, j - 1);
    }
  }

  /** `make_grid` has no rows exactly when one of its arguments is empty. */
  lemma {:induction false} NoRowsIffEmptyArgument(args: seq<seq<int>>, j: nat)
    requires j <= |args|
    ensures SuffixProd(args, j) == 0 <==> exists t :: j <= t < |args| && args[t] == []
    decreases |args| - j
  {
    if j < |args| {
      NoRowsIffEmptyArgument(args, j + 1);
      if args[j] != [] && SuffixProd(args, j + 1) != 0 {
        assert |args[j]| * SuffixProd(args, j + 1) != 0;
      }
    }
  }

  /** `range(n)` as a sequence. */
  function Range(n: nat): (r: seq<int>)
    ensures |r| == n && forall i :: 0 <= i < n ==> r[i] == i
  {
    seq(n, i => i)
  }

  function Ranges3(n: nat): seq<seq<int>>
  {
    [Range(n), Range(n), Range(n)]
  }

  lemma Ranges3Prod(n: nat)
    ensures SuffixProd(Ranges3(n), 3) == 1
    ensures SuffixProd(Ranges3(n), 2) == n
    ensures SuffixProd(Ranges3(n), 1) == n * n
    ensures SuffixProd(Ranges3(n), 0) == n * n * n
  {
  }

  /** Quotient and remainder are unique. */
  lemma DivModUnique(i: int, b: int, q: int, r: int)
    requires b > 0 && 0 <= r < b && i == q * b + r
    ensures i / b == q && i % b == r
  {
    var q0, r0 := i / b, i % b;
    assert q0 * b + r0 == q * b + r;
    MulSign(q - q0, b);
    assert (q - q0) * b == q * b - q0 * b;
  }

  lemma MulSign(d: int, b: int)
    requires b > 0
    ensures d >= 1 ==> d * b >= b
    ensures d <= -1 ==> d * b <= -b
  {
    if d >= 1 {
      assert d * b == (d - 1) * b + b;
    } else if d <= -1 {
      assert d * b == (d + 1) * b - b;
    }
  }

  lemma MulMono(x: nat, y: nat, b: nat)
    requires x <= y
    ensures x * b <= y * b
  {
    assert y * b == x * b + (y - x) * b;
  }

  /** Position m of block i of a tiling with count blocks of size b lies inside the tiling. */
  lemma BlockBound(i: nat, m: nat, b: nat, count: nat)
    requires m < b && i < count
    ensures i * b + m < count * b
  {
    MulMono(i + 1, count, b);
    assert (i + 1) * b == i * b + b;
  }

  /** Position m of block i of a tiling with blocks of size b. */
  lemma BlockIndex(i: nat, m: nat, b: nat, count: nat)
    requires m < b && i < count
    ensures i * b + m < count * b
    ensures (i * b + m) / b == i && (i * b + m) % b == m
  {
    BlockBound(i, m, b, count);
    DivModUnique(i * b + m, b, i, m);
  }

  /** The grid row of the cell (x, y, z) of an n-cube: x*n*n + y*n + z. */
  function CubeRow(n: nat, x: nat, y: nat, z: nat): nat
  {
    (x * n + y) * n + z
  }

  /** The row splits into x blocks of n*n rows and the row y*n + z inside the block. */
  lemma CubeRowSplit(n: nat, x: nat, y: nat, z: nat)
    requires x < n && y < n && z < n
    ensures CubeRow(n, x, y, z) == x * (n * n) + (y * n + z)
    ensures y * n + z < n * n
    ensures CubeRow(n, x, y, z) < n * (n * n)
  {
    var p := x * n;
    assert (p + y) * n == p * n + y * n;
    assert p * n == x * (n * n);
    BlockBound(y, z, n, n);
    BlockBound(x, y * n + z, n * n, n);
  }

  /** The three digits of the row in base n are x, y and z. */
  lemma CubeRowDigits(n: nat, x: nat, y: nat, z: nat)
    requires x < n && y < n && z < n
    ensures CubeRow(n, x, y, z) / (n * n) == x
    ensures (CubeRow(n, x, y, z) / n) % n == y
    ensures CubeRow(n, x, y, z) % n == z
  {
    var i := CubeRow(n, x, y, z);
    CubeRowSplit(n, x, y, z);
    DivModUnique(i, n * n, x, y * n + z);
    DivModUnique(i, n, x * n + y, z);
    DivModUnique(x * n + y, n, x, y);
  }

  /** The grid row of the cell (x, y, z) of an n-cube holds x, y and z. */
  lemma CubeGridRow(n: nat, x: nat, y: nat, z: nat)
    requires x < n && y < n && z < n
    ensures CubeRow(n, x, y, z) < n * n * n
    ensures GridValue(Ranges3(n), CubeRow(n, x, y, z), 0) == x
    ensures GridValue(Ranges3(n), CubeRow(n, x, y, z), 1) == y
    ensures GridValue(Ranges3(n), CubeRow(n, x, y, z), 2) == z
  {
    Ranges3Prod(n);
    var i := CubeRow(n, x, y, z);
    CubeRowSplit(n, x, y, z);
    assert n * n * n == n * (n * n);
    CubeRowDigits(n, x, y, z);
    DivModUnique(x, n, 0, x);
    assert i / 1 == i;
  }

  // -------------------------------------------------- gen_fcc / gen_bcc

  /** Number of repeat cells per axis: `int(dim / latt_param)`, and `range` of it. */
  function Reps(dim: real, a: real): nat
    requires a != 0.0
  {
    RangeLen(Trunc(dim / a))
  }

  function FccBasis(a: real): seq<Point>
  {
    [Point(0.0, 0.0, 0.0), Point(a / 2.0, a / 2.0, 0.0), Point(a / 2.0, 0.0, a / 2.0), Point(0.0, a / 2.0, a / 2.0)]
  }

  function BccBasis(a: real): seq<Point>
  {
    [Point(0.0, 0.0, 0.0), Point(a / 2.0, a / 2.0, a / 2.0)]
  }

  /** The grid row `i` of an n-cube, as a point. */
  function CellOf(n: nat, i: nat): Point
  {
    var g := Ranges3(n);
    Point(GridValue(g, i, 0) as real, GridValue(g, i, 1) as real, GridValue(g, i, 2) as real)
  }

  /** Block i holds the basis shifted by a times grid row i (before centring). */
  function Tiled(n: nat, a: real, basis: seq<Point>): seq<Point>
  {
    var b := |basis|;
    seq(n * n * n * b, t requires 0 <= t < n * n * n * b =>
      Add(basis[t % b], Scale(a, CellOf(n, t / b))))
  }

  function Centroid(s: seq<Point>): Point
    requires |s| > 0
  {
    Scale(1.0 / |s| as real, PointSum(s))
  }

  /** The tiled points minus their centroid (the empty set stays empty). */
  function Centred(s: seq<Point>): (r: seq<Point>)
    ensures |r| == |s|
  {
    if s == [] then [] else Shifted(s, Centroid(s))
  }

  lemma CentredHasZeroSum(s: seq<Point>)
    ensures PointSum(Centred(s)) == Origin
  {
    if s != [] {
      CentredSumsToZero(s);
    }
  }

  /**
   * The body shared by `gen_fcc` and `gen_bcc`: tile `basis` over the
   * `make_grid` cells of an n-cube (n = int(dim / a)) and subtract the centroid
   * in place.
   */
  method Tile(dim: real, a: real, basis: seq<Point>) returns (bulk: array<Point>)
    requires a != 0.0 && |basis| > 0
    ensures fresh(bulk)
    ensures bulk[..] == Centred(Tiled(Reps(dim, a), a, basis))
  {
    var n := Reps(dim, a);
    var b := |basis|;
    var reps := MakeGrid(Ranges3(n));
    Ranges3Prod(n);
    ghost var raw := Tiled(n, a, basis);
    assert reps.Length0 == n * n * n;
    bulk := new Point[reps.Length0 * b](_ => Origin);
    for i := 0 to reps.Length0
      modifies bulk
      invariant forall t :: 0 <= t < i * b ==> bulk[t] == raw[t]
    {
      var disp := Scale(a, Point(reps[i, 0] as real, reps[i, 1] as real, reps[i, 2] as real));
      assert reps[i, 0] == GridValue(Ranges3(n), i, 0);
      assert reps[i, 1] == GridValue(Ranges3(n), i, 1);
      assert reps[i, 2] == GridValue(Ranges3(n), i, 2);
      assert disp == Scale(a, CellOf(n, i));
      MulMono(i + 1, reps.Length0, b);
      FillCell(bulk, n, a, basis, i, disp);
    }
    assert bulk[..] == raw;
    CentreInPlace(bulk);
  }

  /** The inner loop of the tiling: cell i's copy of the basis goes into block i. */
  method FillCell(bulk: array<Point>, n: nat, a: real, basis: seq<Point>, i: nat, disp: Point)
    requires i < n * n * n && bulk.Length == n * n * n * |basis| && disp == Scale(a, CellOf(n, i))
    requires (i + 1) * |basis| <= bulk.Length
    requires forall t :: 0 <= t < i * |basis| ==> bulk[t] == Tiled(n, a, basis)[t]
    modifies bulk
    ensures forall t :: 0 <= t < (i + 1) * |basis| ==> bulk[t] == Tiled(n, a, basis)[t]
  {
    var b := |basis|;
    ghost var raw := Tiled(n, a, basis);
    for m := 0 to b
      invariant i * b + m <= bulk.Length
      invariant forall t :: 0 <= t < i * b + m ==> bulk[t] == raw[t]
    {
      TiledAt(n, a, basis, i, m);
      bulk[i * b + m] := Add(basis[m], disp);
    }
    assert i * b + b == (i + 1) * b;
  }

  /**
   * `center = np.sum(bulk_xyz, axis=0) / bulk_xyz.shape[0]; bulk_xyz -= center`.
   * An empty array stays empty (numpy's 0/0 only produces a nan centre).
   */
  method CentreInPlace(bulk: array<Point>)
    modifies bulk
    ensures bulk[..] == Centred(old(bulk[..]))
  {
    ghost var raw := bulk[..];
    if bulk.Length > 0 {
      var center := Centroid(bulk[..]);
      for t := 0 to bulk.Length
        invariant forall u :: 0 <= u < t ==> bulk[u] == Sub(raw[u], center)
        invariant forall u :: t <= u < bulk.Length ==> bulk[u] == raw[u]
      {
        bulk[t] := Sub(bulk[t], center);
      }
    }
  }

  /** `gen_fcc(dim, a)`: four atoms per cell, centred on the centroid. */
  method GenFcc(dim: real, a: real) returns (bulk: array<Point>)
    requires a != 0.0
    ensures fresh(bulk)
    ensures bulk[..] == Centred(Tiled(Reps(dim, a), a, FccBasis(a)))
  {
    bulk := Tile(dim, a, FccBasis(a));
  }

  /** `gen_bcc(dim, a)`: two atoms per cell, centred on the centroid. */
  method GenBcc(dim: real, a: real) returns (bulk: array<Point>)
    requires a != 0.0
    ensures fresh(bulk)
    ensures bulk[..] == Centred(Tiled(Reps(dim, a), a, BccBasis(a)))
  {
    bulk := Tile(dim, a, BccBasis(a));
  }

  /** Index of basis atom m of cell (x, y, z) in the tiling. */
  function Slot(n: nat, x: nat, y: nat, z: nat, b: nat, m: nat): nat
  {
    CubeRow(n, x, y, z) * b + m
  }

  /**
   * What `gen_fcc` / `gen_bcc` promise: the points of block x·n² + y·n + z are
   * the basis shifted by a·(x, y, z), all minus the centroid of the tiling.
   */
  lemma TiledLattice(n: nat, a: real, basis: seq<Point>, x: nat, y: nat, z: nat, m: nat)
    requires x < n && y < n && z < n && m < |basis|
    ensures Slot(n, x, y, z, |basis|, m) < |Centred(Tiled(n, a, basis))|
    ensures Centred(Tiled(n, a, basis))[Slot(n, x, y, z, |basis|, m)]
         == Sub(Add(basis[m], Scale(a, Point(x as real, y as real, z as real))), Centroid(Tiled(n, a, basis)))
  {
    var i := CubeRow(n, x, y, z);
    CubeGridRow(n, x, y, z);
    TiledAt(n, a, basis, i, m);
    CentredAt(Tiled(n, a, basis), i * |basis| + m);
  }

  lemma CentredAt(s: seq<Point>, k: nat)
    requires k < |s|
    ensures k < |Centred(s)| && Centred(s)[k] == Sub(s[k], Centroid(s))
  {
  }

  lemma TiledAt(n: nat, a: real, basis: seq<Point>, i: nat, m: nat)
    requires i < n * n * n && m < |basis|
    ensures i * |basis| + m < |Tiled(n, a, basis)|
    ensures Tiled(n, a, basis)[i * |basis| + m] == Add(basis[m], Scale(a, CellOf(n, i)))
  {
    BlockIndex(i, m, |basis|, n * n * n);
  }
}
