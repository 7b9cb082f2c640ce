/**
 * The character-class validator that guards the text fields of the input
 * forms: which strings `Validate` accepts, and which key presses `OnChar`
 * lets through to the text control.
 */
module Validator {
  import opened Common

  const Letters: string := "abcdefghijklmnopqrstuvwxyzABCDEFGHIJKLMNOPQRSTUVWXYZ"
  const Nums: string := "-0123456789."
  const PosNums: string := "0123456789."

  /** wx key codes of the space bar and of the delete key. */
  const KeySpace: int := 32
  const KeyDelete: int := 127

  /** An info bar or log window, identified by the widget object it is. */
  type Widget = nat

  datatype CharValidator = CharValidator(flag: string, infoBar: Option<Widget>, log: Option<Widget>)

  /** The characters a flag admits; `None` for a flag the validator does not know. */
  function AllowedChars(flag: string): Option<string>
  {
    if flag == "NUM_ONLY" then Some(Nums)
    else if flag == "POS_NUM_ONLY" then Some(PosNums)
    else if flag == "ALPHA_ONLY" then Some(Letters)
    else None
  }

  /** What `Validate` decides: every character is in the flag's set, and an unknown flag admits anything. */
  predicate Accepts(flag: string, val: string)
  {
    match AllowedChars(flag)
    case None => true
    case Some(cs) => forall i :: 0 <= i < |val| ==> val[i] in cs
  }

  /** `Validate`: scan the field's value and stop at the first character outside the flag's set. */
  method Validate(v: CharValidator, val: string) returns (ok: bool)
    ensures ok == Accepts(v.flag, val)
  {
    var allowed := AllowedChars(v.flag);
    if allowed.Some? {
      for i := 0 to |val|
        invariant forall j :: 0 <= j < i ==> val[j] in allowed.value
      {
        if val[i] !in allowed.value {
          return false;
        }
      }
    }
    return true;
  }

  /** The copy the widget toolkit asks for: same flag, same info bar, same log. */
  function Clone(v: CharValidator): (r: CharValidator)
    ensures r.flag == v.flag && r.infoBar == v.infoBar && r.log == v.log
    ensures forall val :: Accepts(r.flag, val) == Accepts(v.flag, val)
    ensures forall key, silent :: OnChar(r, key, silent) == OnChar(v, key, silent)
  {
    CharValidator(v.flag, v.infoBar, v.log)
  }

  /** A key code the validator never filters: control codes, delete, and codes above 255. */
  predicate Unfiltered(key: int)
  {
    key < KeySpace || key == KeyDelete || key > 255
  }

  /** Python's `chr` on the key codes that reach the character tests. */
  function Chr(key: int): char
    requires KeySpace <= key <= 255
  {
    key as char
  }

  /** The message shown for a rejected key; `None` where the source leaves `mes` unbound. */
  function Complaint(flag: string): Option<string>
  {
    if flag == "POS_NUM_ONLY" then Some("Please enter positive number.")
    else if flag == "NUM_ONLY" then Some("Please enter digitals.")
    else if flag == "ALPHA_ONLY" then Some("Please enter letters.")
    else None
  }

  /**
   * What happens to a key press: it is passed on to the text control, or it is
   * swallowed, with a bell and the complaint shown on the info bar and written
   * to the log when the validator is not silent.
   */
  datatype KeyVerdict = Passed | Swallowed(bell: bool, shown: Option<string>, logged: Option<string>)

  /**
   * `OnChar`. A non-silent rejection under an unknown flag reaches the info bar
   * or the log with `mes` unbound, which raises UnboundLocalError.
   */
  function OnChar(v: CharValidator, key: int, silent: bool): (r: Outcome<KeyVerdict>)
  {
    if Unfiltered(key) then Ok(Passed)
    else if v.flag == "ALPHA_ONLY" && Chr(key) in Letters then Ok(Passed)
    else if v.flag == "NUM_ONLY" && Chr(key) in Nums then Ok(Passed)
    else if v.flag == "POS_NUM_ONLY" && Chr(key) in PosNums then Ok(Passed)
    else if silent then Ok(Swallowed(false, None, None))
    else
      match Complaint(v.flag)
      case None =>
        if v.infoBar.Some? || v.log.Some? then Raised("UnboundLocalError") else Ok(Swallowed(true, None, None))
      case Some(mes) =>
        Ok(Swallowed(true, if v.infoBar.Some? then Some(mes) else None, if v.log.Some? then Some(mes) else None))
  }

  /** A key passes iff it is unfiltered or its character is in the flag's set. */
  lemma OnCharPasses(v: CharValidator, key: int, silent: bool)
    ensures OnChar(v, key, silent) == Ok(Passed) <==>
            Unfiltered(key) || (AllowedChars(v.flag).Some? && Chr(key) in AllowedChars(v.flag).value)
  {
  }

  /** For a known flag and a printable key, `OnChar` and `Validate` agree on the one-character string. */
  lemma OnCharAgreesWithValidate(v: CharValidator, key: int, silent: bool)
    requires AllowedChars(v.flag).Some? && !Unfiltered(key)
    ensures OnChar(v, key, silent) == Ok(Passed) <==> Accepts(v.flag, [Chr(key)])
  {
    OnCharPasses(v, key, silent);
    var cs := AllowedChars(v.flag).value;
    assert [Chr(key)][0] == Chr(key);
    if Chr(key) in cs {
      assert forall i :: 0 <= i < 1 ==> [Chr(key)][i] in cs;
    }
  }

  /** Under an unknown flag every string validates, yet every printable key is swallowed or raises. */
  lemma UnknownFlagDisagrees(v: CharValidator, key: int, silent: bool, val: string)
    requires AllowedChars(v.flag).None? && !Unfiltered(key)
    ensures Accepts(v.flag, val)
    ensures OnChar(v, key, silent) != Ok(Passed)
  {
    OnCharPasses(v, key, silent);
  }

  /** A rejected key is swallowed with the flag's message wherever an info bar or log is attached. */
  lemma RejectedKeyMessage(v: CharValidator, key: int)
    requires AllowedChars(v.flag).Some? && !Unfiltered(key) && Chr(key) !in AllowedChars(v.flag).value
    ensures OnChar(v, key, true) == Ok(Swallowed(false, None, None))
    ensures OnChar(v, key, false).Ok? && OnChar(v, key, false).value.Swallowed?
    ensures OnChar(v, key, false).value.bell
    ensures v.infoBar.Some? <==> OnChar(v, key, false).value.shown == Complaint(v.flag)
    ensures v.log.Some? <==> OnChar(v, key, false).value.logged == Complaint(v.flag)
  {
    OnCharPasses(v, key, true);
    OnCharPasses(v, key, false);
  }

  /** Validation looks at each character alone: a concatenation is valid iff both parts are. */
  lemma AcceptsConcat(flag: string, s: string, t: string)
    ensures Accepts(flag, s + t) <==> Accepts(flag, s) && Accepts(flag, t)
  {
    if AllowedChars(flag).Some? {
      var cs := AllowedChars(flag).value;
      if Accepts(flag, s) && Accepts(flag, t) {
        forall i | 0 <= i < |s + t|
          ensures (s + t)[i] in cs
        {
          if i >= |s| {
            assert (s + t)[i] == t[i - |s|];
          }
        }
      }
      if Accepts(flag, s + t) {
        forall i | 0 <= i < |t|
          ensures t[i] in cs
        {
          assert (s + t)[|s| + i] == t[i];
        }
        forall i | 0 <= i < |s|
          ensures s[i] in cs
        {
          assert (s + t)[i] == s[i];
        }
      }
    }
  }

  /** The empty field is valid under every flag. */
  lemma EmptyAccepted(flag: string)
    ensures Accepts(flag, "")
  {
  }

  /** Every POS_NUM_ONLY-valid string is NUM_ONLY-valid: the positive set lies inside the signed one. */
  lemma PositiveWithinSigned(val: string)
    ensures Accepts("POS_NUM_ONLY", val) ==> Accepts("NUM_ONLY", val)
  {
    assert forall c :: c in PosNums ==> c in Nums by {
      assert PosNums == Nums[1..];
    }
  }

  /** Only membership is checked: several points or signs in any order pass NUM_ONLY. */
  lemma SignsAndPointsAnywhere(val: string)
    requires forall i :: 0 <= i < |val| ==> val[i] == '-' || val[i] == '.' || IsDigit(val[i])
    ensures Accepts("NUM_ONLY", val)
  {
    forall i | 0 <= i < |val|
      ensures val[i] in Nums
    {
      var c := val[i];
      if IsDigit(c) {
        assert c == Nums[(c as int - '0' as int) + 1];
      } else {
        assert c == Nums[0] || c == Nums[11];
      }
    }
  }
}
