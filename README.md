# MOSP core in Dafny

This project models the computational core of MOSP, a tool that builds
catalyst nanoparticles under reaction conditions. Its Wulff engine takes a
parameter map, reads gases and crystal faces, and solves each face's gas
coverage. It then corrects the surface energies for the adsorbates and
lists the family of planes of every face. The crystal is cut along those
planes at Wulff lengths, each atom's coordination is counted, and every
atom is classified as facet, edge, corner, subsurface or bulk.

Around the engine the model also covers:
- the input files of the kinetic Monte Carlo step;
- the character validator of the input forms;
- the species, product and event records and their JSON round trip;
- the colouring of the particle for display.

The older copy of the engine (`func/Custom_msr.py`) is modelled where it
differs from the main one.

Floating-point numbers are exact `real`s. Python integers are `int`.
`sqrt`, `exp` and `ln` are function parameters: no property here depends on
their values beyond what each contract states. An exception a Python
function lets escape is an `Outcome.Raised(name)`. A value numpy would
carry as inf or nan is `Outcome.NonFinite` (or `None` in an `Option`).

Modules:
- `Common`: points, outcomes, digit texts, the centroid shift.
- `PyText`: Python's `float()` and `int()` on texts, `str.strip`, and the
  index tokeniser.
- `Lattice`: `hcf`, `get_planes` with the FCC/BCC and HCP branches,
  `make_grid`, `gen_fcc` and `gen_bcc`.
- `Cluster`: `gen_cluster`, in both copies.
- `Coordination`: the main `surf_count`.
- `Params`: the gas and face loops of `get_para`.
- `Coverage`: the solver's residual, its acceptance test and the clamp
  of `gen_coverage`.
- `Surface`: the corrected energy and `planes_dict`.
- `Marking`: `mark_atoms`.
- `Msr`: the `Wulff` class.
- `CustomMsr`: the older copy's `surf_count` buckets, area test and
  `geometry` answer.
- `KmcIo`: `str2zero` and `writeKmcInp`.
- `Validator`: `CharValidator`.
- `DataClass`: `Specie`, `Product` and `Event`.
- `Particle`: the colour tables and `NanoParticle`.

## Model

| member | source | states |
|---|---|---|
| Lattice.PyMod | utils/msr.py:36 | Python's `%`: the remainder lies in [0, y) for positive y and in (y, 0] for negative y |
| Lattice.PyDivMod | utils/msr.py:36 | x == y·(x // y) + x % y, Python's floor division law |
| Lattice.EuclidStep | utils/msr.py:35-36 | one step `x, y = y, x % y` keeps the set of common divisors |
| Lattice.EuclidDivisors | utils/msr.py:35-38 | the loop's result has exactly the common divisors of its inputs |
| Lattice.HcfOfDivisors | utils/msr.py:27-38 | on non-negative inputs `hcf` is non-negative and its divisors are exactly the common divisors |
| Lattice.Hcf | utils/msr.py:27-38 | returns y when x is 0 and x when y is 0; its divisors are the inputs' common divisors; on non-negative inputs it is their gcd |
| Lattice.ParseIndexChars | utils/msr.py:44-45 | the index parses iff it has at least three characters and the first three are digits; each value is a digit 0..9 |
| Lattice.Perms6Index | utils/msr.py:53-54 | `permutations([a, b, c])` yields six tuples, position p holding order p |
| Lattice.HBlockIsBlocks | utils/msr.py:47-54 | the 48 appended tuples are the eight sign blocks in loop order |
| Lattice.InBlock | utils/msr.py:47-54 | a tuple is in sign block i iff it is some permutation of (±h, ±k, ±l) with block i's signs |
| Lattice.HBlockInFamily | utils/msr.py:47-54 | every tuple the sign loops append is in the cubic family of (h, k, l) |
| Lattice.FamilyInHBlock | utils/msr.py:47-54 | every member of the cubic family is appended by the sign loops |
| Lattice.HBlockIsFamily | utils/msr.py:46-54 | the tuples appended are exactly the cubic family: every sign flip of every order |
| Lattice.SignLoops | utils/msr.py:47-54 | the three nested sign loops append exactly HBlock, in order |
| Lattice.ListOfSet | utils/msr.py:78 | `list(set(planes))` holds each distinct tuple once and exactly the tuples of the input |
| Lattice.HexPrefixFamily | utils/msr.py:60-76 | with no zero divisor in any round, the rounds list exactly the HCP family |
| Lattice.HexLoops | utils/msr.py:55-76 | the HCP loops raise ZeroDivisionError iff some round's `hcf` divisor is 0, and otherwise list exactly the family of reduced tuples |
| Lattice.RaisesAt | utils/msr.py:72-73 | a zero divisor in any round makes the branch raise |
| Lattice.DivisorDivides | utils/msr.py:72-75 | a nonzero divisor is positive and divides each component exactly, so `h /= divisor` loses nothing |
| Lattice.ReduceNegated | utils/msr.py:72-75 | negating a tuple keeps its divisor and negates its reduction |
| Lattice.OppositeSigns | utils/msr.py:60-67 | sign round 15 - i negates exactly the components round i keeps |
| Lattice.HexRoundOpposite | utils/msr.py:56-71 | the round with every sign loop on its other side computes the negated tuple |
| Lattice.InHexFamily | utils/msr.py:68-76 | a round with a nonzero divisor contributes its reduction to the family |
| Lattice.HexMember | utils/msr.py:68-76 | every family member is the reduction of some round |
| Lattice.HexFamilyInversion | utils/msr.py:55-76 | the HCP family is closed under inversion (h, k, l) to (-h, -k, -l) |
| Lattice.HexRaisesAtZero | utils/msr.py:72-73 | index "000" raises ZeroDivisionError |
| Lattice.HexRaisesAt121 | utils/msr.py:56-73 | index "121" also raises: one round's tuple is (0, 0, 0) |
| Lattice.GetPlanes | utils/msr.py:41-79 | succeeds iff the index's first three characters are digits and, for HCP, no divisor is zero; the list has no duplicates and holds exactly the family (FCC/BCC cubic, HCP reduced four-index, other structures none); otherwise it raises the exception reading or dividing raises |
| Lattice.BlockNoDuplicates | utils/msr.py:53-54 | with distinct nonzero \|h\|, \|k\|, \|l\| one sign block repeats no tuple |
| Lattice.BlocksDisjoint | utils/msr.py:47-54 | with distinct nonzero \|h\|, \|k\|, \|l\| two sign blocks share no tuple |
| Lattice.BlocksNoDuplicates | utils/msr.py:47-54 | the sign loops then append no tuple twice |
| Lattice.FamilyOf48 | utils/msr.py:41-79 | an index with distinct nonzero \|h\|, \|k\|, \|l\| has 48 planes |
| Lattice.FamilyOf111 | utils/msr.py:41-79 | the (1,1,1) family is the eight sign vectors |
| Lattice.FamilyOf100 | utils/msr.py:41-79 | the (1,0,0) family is the six axis directions |
| Lattice.FloatMod | utils/msr.py:96 | Python's float `%` for a positive divisor lies in [0, y) |
| Lattice.FloatDigit | utils/msr.py:94-98 | `int(index % n)` on the float index i / P equals the integer digit (i // P) % n |
| Lattice.FloatIndexStep | utils/msr.py:98 | dividing the float index once more by n divides i by the longer product |
| Lattice.MakeGrid | utils/msr.py:82-99 | one row per combination of the arguments' entries; cell (i, j) is digit j of i in the mixed radix of the lengths, the last argument fastest |
| Lattice.NoRowsIffEmptyArgument | utils/msr.py:90-92 | the grid has no rows iff some argument is empty |
| Lattice.CubeGridRow | utils/msr.py:114 | in the grid of three `range(n)`, row x·n² + y·n + z holds (x, y, z) |
| Lattice.CentredHasZeroSum | utils/msr.py:119-120 | the centred points sum to zero on every axis |
| Lattice.Tile | utils/msr.py:107-121 | the array is the basis tiled over the n-cube's cells, n = int(dim / a), minus the centroid |
| Lattice.FillCell | utils/msr.py:116-118 | cell i's copy of the basis goes into block i and nothing else changes |
| Lattice.CentreInPlace | utils/msr.py:119-120 | every point is shifted by the centroid; an empty array stays empty |
| Lattice.GenFcc | utils/msr.py:102-121 | the centred tiling of the four-atom FCC basis over the n-cube, n = int(dim / a) |
| Lattice.GenBcc | utils/msr.py:124-142 | the centred tiling of the two-atom BCC basis over the n-cube, n = int(dim / a) |
| Lattice.TiledLattice | utils/msr.py:114-120 | atom m of block x·n² + y·n + z is basis atom m shifted by a·(x, y, z), minus the centroid |
| Common.CentredSumsToZero | utils/msr.py:119-120 | subtracting the centroid leaves a point set whose every axis sums to zero |
| Common.Trunc | utils/msr.py:109-110 | Python's `int()` on a float truncates toward zero |
| Cluster.GenCluster | utils/msr.py:170-177 | the projection matrix and the indices of the atoms under every plane, in increasing order |
| Cluster.GenClusterKeeps | utils/msr.py:173-176 | an atom is kept iff its projection on every plane's unit normal is at most that plane's length |
| Cluster.LongerKeepsAtoms | utils/msr.py:174-176 | lengthening any plane never removes an atom from the cut |
| Cluster.GenClusterCoordinates | func/Custom_msr.py:167-173 | the older copy returns the kept atoms' coordinates |
| Cluster.GenClusterCoordinatesAreKept | func/Custom_msr.py:167-173 | those coordinates are exactly the atoms under every plane, in their original order |
| Coordination.NearMatrixSymmetric | utils/msr.py:185-187 | the neighbour relation `dist < threshold` is symmetric |
| Coordination.NearMatrixReflexive | utils/msr.py:185-187 | every atom is within reach of itself when sqrt(0) is below the threshold |
| Coordination.CoordNumberIsDegree | utils/msr.py:186-190 | where an atom reaches itself, `coor_number` and the first column of `cn_mat` agree |
| Coordination.SurfCount | utils/msr.py:180-205 | ValueError when an atom has more than 12 neighbours, UnboundLocalError for no atoms; otherwise cn, gcn (/8 BCC, /12 else), nsurf and the surface mean (None for no surface atom), each equal to an independent count |
| Coordination.GcnLoop | utils/msr.py:194-204 | every gcn entry is its neighbours' summed coordination over 8 (BCC) or 12 |
| Coordination.NeighbourTable | utils/msr.py:184-191 | the coordination numbers and neighbour rows, or None at the first row that overflows 13 columns |
| Coordination.AccumulateDegrees | utils/msr.py:195-196 | the sum of the neighbours' first columns |
| Coordination.Handshake | utils/msr.py:190 | the first column of `cn_mat` sums to twice the number of neighbour pairs |
| Coordination.SurfaceMeanBelowLimit | utils/msr.py:199-204 | the surface mean coordination lies below the surface limit (7 BCC, 10 otherwise) |
| Params.KeptGasesMembers | utils/msr.py:259-262 | the kept gases are exactly those with non-empty partial-pressure text |
| Params.GasRowOfMeaning | utils/msr.py:264-269 | a kept gas is accepted iff both texts parse and rPP/P0 > 0, and then carries rPP = PP·P/100 and S - k_b·ln(rPP/P0); ValueError iff a text does not parse |
| Params.GatherNext | utils/msr.py:259-269 | one more gas is one more step of the loop |
| Params.GatherStaysFailed | utils/msr.py:259-269 | after the loop stops on a failure, later gases change nothing |
| Params.GatherValues | utils/msr.py:259-269 | entry x of the gathered arrays is kept gas x's contribution, in gas order |
| Params.GatherFails | utils/msr.py:259-269 | the loop ends with the first failing kept gas's outcome, and succeeds when none fails |
| Params.GasesUpToValues | utils/msr.py:264-269 | kept gas x's entries come from its own texts |
| Params.Compact | utils/msr.py:322-332 | the kept gases' row entries in order; None (IndexError) when a kept index is out of range |
| Params.CompactMatrix | utils/msr.py:321-332 | the interaction matrix restricted to the kept gases; ValueError for a ragged list, IndexError for a short one |
| Params.CompactKeepsSymmetry | utils/msr.py:327-331 | dropping gases keeps a symmetric interaction matrix symmetric |
| Params.SpacingIsLatticeOverNorm | utils/msr.py:288-303 | whichever divisor is chosen, the spacing is a / sqrt(h² + k² + l²) |
| Params.BondLengthOf | utils/msr.py:288-305 | a bond length is set iff the structure is FCC, BCC or HCP; for FCC and BCC it is the cubic bond length, positive for a positive lattice constant |
| Params.FaceRowOf | utils/msr.py:279-332 | an accepted face has a nonzero area, a cubic structure, a nonzero lattice constant and kept-gas rows of matching, square shape |
| Params.FaceRowMeaning | utils/msr.py:282-332 | an accepted face has three index tokens, spacing a / norm, and rows equal to the kept gases' entries |
| Params.BadIndexIsReported | utils/msr.py:283-285 | a face without exactly three index tokens gives the "check the face index" return, not an exception |
| Coverage.CalWOfBareFace | utils/msr.py:348-349 | with every coverage zero no gas feels a lateral interaction |
| Coverage.Residual | utils/msr.py:342-360 | one residual per gas and then the site balance `sum(TTT) - 1` |
| Coverage.AcceptedRoot | utils/msr.py:365 | an unfolding of the loop's exit test: an accepted root has one entry per gas and one for the free sites, and every gas entry is positive |
| Coverage.FrozenResidual | utils/msr.py:352-358 | at T = 0 an adsorbing gas's residual is finite iff its exponent's numerator is negative and rPP is nonzero, and it is then -TTT[-1] |
| Coverage.FrozenAccepted | utils/msr.py:352-365 | a root accepted at T = 0 has every adsorbing gas with a negative numerator and nonzero rPP |
| Coverage.OneHotStays | utils/msr.py:368-371 | once one gas holds the whole cap, the rest of the loop changes nothing |
| Coverage.ClampFirstHit | utils/msr.py:368-371 | for a positive cap, the first gas that reaches it decides the clamp: one-hot at that gas, else unchanged |
| Coverage.Clamp | utils/msr.py:368-371 | the loop computes the clamp specification on the solver's root |
| Coverage.CoverageWithinCap | utils/msr.py:368-373 | every written coverage lies in [0, cap], and is the root itself or the one-hot vector of the first gas at the cap |
| Surface.CorrectionIsEnergyOverArea | utils/msr.py:383-387 | the correction Σθ·(E_ads - wθ)/A equals the adsorbed energy over the atom area |
| Surface.BareFaceKeepsGamma | utils/msr.py:383-387 | a face with zero coverage keeps its clean surface energy |
| Surface.NoInteractionCorrection | utils/msr.py:383-387 | with all interactions zero the correction is Σθ·E_ads / A |
| Surface.PlanesDictKeys | utils/msr.py:389-391 | a plane is a key of `planes_dict` iff some face's family holds it |
| Surface.KeyOfFamily | utils/msr.py:389-391 | a plane of face m's family is a key once face m is entered |
| Surface.PlanesDictStep | utils/msr.py:390-391 | each face maps its family to itself over the earlier entries |
| Surface.PlanesDictValues | utils/msr.py:390-391 | every value is a face string whose family holds the key |
| Surface.PlanesDictLastWins | utils/msr.py:390-391 | a plane shared by several faces maps to the last of them |
| Surface.RepeatedPrefix | utils/msr.py:393 | the energies of the lists so far read only their own faces' energies |
| Surface.RepeatedSnoc | utils/msr.py:392-393 | one more face appends its planes, each with that face's energy |
| Surface.FlattenOwners | utils/msr.py:392-393 | every listed plane comes from its owner face and carries that face's corrected energy |
| Surface.FlattenHolds | utils/msr.py:392 | every plane of face m's list is in the flattened list |
| Marking.WordsOfLabel | utils/msr.py:416-436 | `label.split()` gives back the face tags the first pass wrote, when each is one word |
| Marking.LabelEndsInBlank | utils/msr.py:416 | a tagged label ends in a blank, so it never equals a fixed label |
| Marking.FacetColour | utils/msr.py:420-427 | a single-facet atom is coloured Au, Cu, Fe or Rh |
| Marking.RemoveAll | utils/msr.py:439 | `a[a != t]` keeps exactly the entries other than t |
| Marking.ColumnMax | utils/msr.py:398 | the column maximum bounds every row and is attained |
| Marking.Tags | utils/msr.py:412-417 | every tag names the face of some plane the atom lies on; at most one tag per plane |
| Marking.TagAtom | utils/msr.py:412-417 | the tag loop computes the tags and the label |
| Marking.DropEmptyFaces | utils/msr.py:437-439 | the removal loop computes the filter over the faces in order |
| Marking.ShareCorner | utils/msr.py:462-463 | the corner loop adds 1/l to each remaining tag's face |
| Marking.FirstLoop | utils/msr.py:407-434 | the first loop computes the first-pass specification |
| Marking.SecondLoop | utils/msr.py:435-466 | the second loop computes the second-pass specification |
| Marking.MarkAtoms | utils/msr.py:396-467 | `mark_atoms` returns the classifier specification Classified |
| Marking.DropEmptyIsFilter | utils/msr.py:437-439 | the loop over faces and a one-pass filter keep the same tags, in order |
| Marking.SumRealBumpAll | utils/msr.py:462-463 | with distinct face strings, tags of known faces raise the total by one share each |
| Marking.CornerSum | utils/msr.py:461-463 | a corner's 1/l shares add one in all |
| Marking.FirstPassCounts | utils/msr.py:407-434 | facet counters + deferred atoms + subsurface labels == candidates |
| Marking.FirstPassDeferred | utils/msr.py:428-429 | deferred atoms are listed once each, in order, with a label of known faces |
| Marking.FirstPassLabel | utils/msr.py:407-434 | one more atom appends exactly its first-pass label, and its index to the deferred list iff it is a candidate with two or more tags |
| Marking.FirstPassBulk | utils/msr.py:411-434 | an atom leaves the first pass labelled " bulk" iff it is not a candidate |
| Marking.SecondPassLabels | utils/msr.py:435-466 | the second pass relabels only the atom it settles, never as bulk |
| Marking.SettledTags | utils/msr.py:436-440 | the tags a deferred atom keeps after the filter all name known faces |
| Marking.TallyStep | utils/msr.py:440-466 | each step settles one deferred atom as facet, edge, corner or unknown, exactly once |
| Marking.SecondPassCounts | utils/msr.py:435-466 | every deferred atom reached is settled exactly once |
| Marking.SecondPassEdgeRatios | utils/msr.py:452-457 | the edge shares sum to the edge count |
| Marking.CornerStep | utils/msr.py:458-464 | a step adds 1/l to each remaining face and one corner iff three or more tags remain |
| Marking.SecondPassCornerRatios | utils/msr.py:458-464 | the corner shares sum to the corner count |
| Marking.Passes | utils/msr.py:396-466 | the classifier is the second pass over the first pass's result |
| Marking.SubsurfaceCount | utils/msr.py:521 | candidates minus facet counters, edges and corners equals the atoms labelled subsurface or unkonwn |
| Marking.ShareSums | utils/msr.py:452-464 | edge and corner shares sum to the edge and corner counts |
| Marking.BulkExactly | utils/msr.py:411-434 | atoms labelled bulk are exactly the non-candidates |
| Msr.FaceOutcomesAt | utils/msr.py:278-332 | face m's outcome depends on face m alone |
| Msr.FaceSpacingsLastWins | utils/msr.py:316 | each face's index text maps to the spacing of the last face with that text |
| Msr.FaceSpacingsKeys | utils/msr.py:281-316 | the keys of `face_d` are exactly the index texts read |
| Msr.StoredIndex | utils/msr.py:281 | index texts are appended in face order |
| Msr.StoredLists | utils/msr.py:317-318 | accepted face j's area and surface energy are appended at position j |
| Msr.StoredRows | utils/msr.py:322-332 | accepted face j's rows replace row j of the zero tables; later rows are untouched |
| Msr.StoredSpacings | utils/msr.py:277-316 | from an empty dictionary, `face_d` maps each index text to the last such face's spacing |
| Msr.StoredLoaded | utils/msr.py:272-333 | faces read into empty lists and zero tables, all accepted, leave tables fit for the later steps |
| Msr.Ones | utils/msr.py:276 | the monolayer coverage is 1 for every face |
| Msr.ZeroTables | utils/msr.py:273-277 | zero tables of n faces by g kept gases and an empty `face_d` |
| Msr.MinOfIsMinimum | utils/msr.py:474 | `np.min` is one of the values and no value is below it |
| Msr.LengthsMeaning | utils/msr.py:474-475 | with positive energies the lowest-energy planes get the radius, others at least it, and a higher energy never a shorter length |
| Msr.EnergiesReady | utils/msr.py:471-474 | positive corrected energies give a non-empty energy list with a positive minimum, all of whose planes have a face with a spacing |
| Msr.FrameKeyed | utils/msr.py:413-414 | every listed plane has a `planes_dict` face, and every such face a `face_d` spacing |
| Msr.CandidatesAreSurface | utils/msr.py:199-411 | the atoms `mark_atoms` examines are exactly those `surf_count` counts as surface |
| Msr.Positives | utils/msr.py:471 | `sum(revised_gamma > 0)` is at most the face count |
| Msr.PositivesAll | utils/msr.py:471 | the count reaches the face count iff every corrected energy is positive |
| Msr.Cut | utils/msr.py:483-484 | the kept coordinates and their projection rows, one per kept atom and one entry per plane |
| Msr.SubsurfaceMeaning | utils/msr.py:521 | with distinct one-word faces the summary's subsurface number is the count of atoms labelled subsurface |
| Msr.BuildBulk | utils/msr.py:477-480 | the bulk is the centred FCC or BCC tiling |
| Msr.Wulff.constructor | utils/msr.py:209-239 | empty parameters, three gases, bond length 3 |
| Msr.Wulff.ReadHeader | utils/msr.py:243-250 | element and structure stored; lattice, pressure and temperature read in turn, and a ValueError skips the rest |
| Msr.Wulff.ReadGas | utils/msr.py:259-269 | one gas: an empty text decrements nGas, a kept gas appends its row, a failure is the outcome |
| Msr.Wulff.ReadGases | utils/msr.py:255-269 | the outcome is the gathered gases' outcome; on success the arrays are extended by the kept gases' rows and nGas is their number |
| Msr.Wulff.EvalFace | utils/msr.py:286-315 | face m's outcome is FaceRowOf's; an accepted face has a cubic structure, nonzero area and square rows |
| Msr.Wulff.StoreFace | utils/msr.py:316-332 | spacing stored under the index text; area and energy appended; row m replaced |
| Msr.Wulff.ReadFace | utils/msr.py:279-332 | one face read; an accepted face is stored and the bond length is the structure's |
| Msr.Wulff.FaceLoop | utils/msr.py:278-333 | all faces accepted gives (True, "") and the stored tables; otherwise the first face not accepted ends the loop with its outcome |
| Msr.Wulff.ClearTables | utils/msr.py:272-277 | face_num, the zero tables, the monolayer coverages and an empty `face_d` |
| Msr.Wulff.ReadFaces | utils/msr.py:272-333 | a negative nFaces raises ValueError; otherwise as FaceLoop from the zero tables |
| Msr.Wulff.ReadBody | utils/msr.py:255-333 | the gas loop's failure is the outcome; after it the face loop's; a successful read leaves the object loaded |
| Msr.Wulff.GetPara | utils/msr.py:241-333 | header as ReadHeader; ValueError for an unparsable radius; KeyError for fewer than three gases; then the gas and face outcomes as ReadBody |
| Msr.Wulff.GenCoverage | utils/msr.py:335-373 | each face's coverage is its accepted root clamped to the monolayer coverage, every entry in [0, 1] |
| Msr.Wulff.RecordPlanes | utils/msr.py:390-391 | every plane of the list maps to the face, over the earlier entries |
| Msr.Wulff.ReviseFace | utils/msr.py:381-387 | face m's corrected energy is RevisedGamma, the others unchanged |
| Msr.Wulff.ListFace | utils/msr.py:389-391 | None iff the index does not read; otherwise the face's family without duplicates, recorded under the face |
| Msr.Wulff.ListStep | utils/msr.py:389-393 | false iff `get_planes` raises on face m; otherwise the lists grow by its planes and energies |
| Msr.Wulff.FaceStep | utils/msr.py:380-393 | face m's energy corrected, then its planes listed and recorded |
| Msr.Wulff.SurfaceLoop | utils/msr.py:380-394 | raises the first unreadable face's error; otherwise every energy corrected and every face's planes listed with its energy |
| Msr.Wulff.GenSurfaceEnergies | utils/msr.py:375-394 | as SurfaceLoop, from zeroed energies and an empty `planes_dict` |
| Msr.Wulff.Classify | utils/msr.py:483-491 | the cut's outcome, and on success the particle of kept atoms with their classification |
| Msr.Wulff.Mark | utils/msr.py:486-491 | the particle recorded from `mark_atoms` on the kept atoms |
| Msr.Wulff.Record | utils/msr.py:487-491 | the particle is stored as the cluster; the fields the shape depends on and the corrected energies and plane lists are unchanged |
| Msr.Wulff.Broken | utils/msr.py:471 | true iff some corrected energy is not positive |
| Msr.Wulff.Build | utils/msr.py:474-486 | the lengths, the centred bulk, the cut and the classification, for positive energies |
| Msr.Wulff.Shape | utils/msr.py:471-491 | a non-positive corrected energy gives (0, message) and no particle; an empty energy list raises ValueError; otherwise the lengths, centred bulk, cut and classified particle as Build states |
| Msr.Wulff.Finish | utils/msr.py:471-523 | the shape and, when a particle is built, its record |
| Msr.Wulff.Geometry | utils/msr.py:469-527 | raises the first unreadable face's error; otherwise the broken report, the ValueError of an empty minimum, or the particle cut, classified and recorded |
| CustomMsr.BucketLoop | func/Custom_msr.py:209-221 | each bucket counter is the number of atoms in that bucket |
| CustomMsr.BucketsPartition | func/Custom_msr.py:209-221 | the three coordination-7 buckets split the CN-7 atoms, the two CN-6 buckets the CN-6 atoms |
| CustomMsr.BelowTenSplit | func/Custom_msr.py:203-222 | below 10 is below 6, or exactly 6, 7, 8 or 9 |
| CustomMsr.Accumulated | func/Custom_msr.py:196-199 | one summed neighbour coordination per atom |
| CustomMsr.SurfCount | func/Custom_msr.py:176-227 | ValueError iff some atom has more than 12 neighbours; otherwise the bucket summary |
| CustomMsr.Summarise | func/Custom_msr.py:196-227 | the accumulation, counts, buckets, nedge and the mean (None for no surface atom) |
| CustomMsr.AccumulateAll | func/Custom_msr.py:196-199 | `accum_cn_mat` is each atom's summed neighbour coordination |
| CustomMsr.AccumulateEntry | func/Custom_msr.py:198-199 | one row of `accum_cn_mat` |
| CustomMsr.EdgeLumps | func/Custom_msr.py:222 | nedge is the CN<6 atoms plus both CN-6 buckets and both CN-7 edge buckets, so never negative |
| CustomMsr.SevensBucketed | func/Custom_msr.py:209-221 | every CN-7 atom is a 110 facet or a CN-7 edge; every CN-6 atom an edge or a corner |
| CustomMsr.AreaDivisorTests | func/Custom_msr.py:298-307 | FCC divides by 4 iff h, k, l are all nonzero; BCC by 1 iff h + k + l is nonzero |
| CustomMsr.AreaDivisorAgreement | func/Custom_msr.py:298-307 | the older copy agrees with the main engine's parity test iff zero and parity tests agree (222 differs) |
| CustomMsr.FaceAreaMeaning | func/Custom_msr.py:295-317 | an area exists iff the index reads and the structure is cubic, and area·divisor == a²·norm |
| CustomMsr.GeometryFlagGate | func/Custom_msr.py:400-433 | 0 iff some corrected energy is not positive; for a cubic structure with nonzero lattice constant and positive energies, 1 iff the main engine proceeds to the cut |
| PyText.ParseRealOfIntText | utils/msr.py:246-248 | `float(str(n))` gives back n for every integer |
| PyText.TwoDotsRejected | utils/msr.py:264 | two dots make `float` raise although the form admits every character |
| PyText.SignsAloneRejected | utils/msr.py:264 | a doubled sign, or a lone sign or dot, raises ValueError |
| PyText.BlanksAndFraction | utils/msr.py:264 | surrounding blanks are ignored and the fraction is read exactly |
| PyText.TokensCountDigits | utils/msr.py:282 | `re.findall(r"-*[0-9]")` yields one token per digit |
| PyText.IntsOfTokensFail | utils/msr.py:282 | the comprehension raises iff a token has two or more dashes |
| PyText.IntsOfThree | utils/msr.py:282 | three tokens of at most one dash convert to their values, in order |
| PyText.MillerPlain | utils/msr.py:282 | three digits read as their values |
| PyText.MillerNegative | utils/msr.py:282 | "1-10" reads as (1, -1, 0) |
| PyText.MillerDoubleDash | utils/msr.py:282 | "1--10" raises ValueError |
| KmcIo.Str2ZeroLaw | utils/kmc_oi.py:4-7 | the result is never a string, only strings change (to 0), and a second pass changes nothing |
| KmcIo.RoundedBounds | utils/kmc_oi.py:15 | for a non-negative length the written bond length lies in (b, b + 0.1] |
| KmcIo.BondLengthOf | utils/kmc_oi.py:11-15 | the bond length is the rounded 0.725·a (FCC) or 0.875·a (BCC), none otherwise |
| KmcIo.Joined | utils/kmc_oi.py:19-26 | an f-string has a text iff every part can be evaluated |
| KmcIo.WrittenMeaning | utils/kmc_oi.py:18-91 | a file is complete iff no write raised, and then it holds every write in order |
| KmcIo.WrittenConcat | utils/kmc_oi.py:32-91 | writing a then b is writing a, and b too when a went through |
| KmcIo.StopsAtFailure | utils/kmc_oi.py:93-94 | after a record fails, later records add nothing |
| KmcIo.Append | utils/kmc_oi.py:18-26 | `f.write` of each line in turn, stopping at the first that raises |
| KmcIo.WriteSection | utils/kmc_oi.py:32-91 | one section file: the blocks of its records, stopping at the first that raises |
| KmcIo.KmcDisk.WriteKmcInp | utils/kmc_oi.py:9-94 | the answer and the four files are those of the run specification |
| KmcIo.KmcDisk.WriteInputAndRecords | utils/kmc_oi.py:17-92 | input.txt, li.txt, then the record files, as the specification says |
| KmcIo.KmcDisk.WriteRecords | utils/kmc_oi.py:32-92 | species, products and events in turn, stopping at the first file that fails |
| KmcIo.RunSucceeded | utils/kmc_oi.py:9-92 | a successful run went through every stage, and these are the files it leaves |
| KmcIo.InputWritesShape | utils/kmc_oi.py:19-26 | the eight writes of input.txt, in order, with their labels |
| KmcIo.InputFileOnSuccess | utils/kmc_oi.py:18-26 | after success input.txt holds exactly those eight lines |
| KmcIo.BlocksComplete | utils/kmc_oi.py:33-91 | a complete section file is made of complete blocks |
| KmcIo.SpecieBlockEnds | utils/kmc_oi.py:36-46 | a species block is eleven writes, from "ID: n+1" to the empty line |
| KmcIo.SpeciesIds | utils/kmc_oi.py:33-46 | species.txt is one eleven-write block per species, numbered from 1 |
| KmcIo.SpeciesFileOnSuccess | utils/kmc_oi.py:32-46 | after success species.txt holds one block per counted species |
| KmcIo.SpeciePartialPressure | utils/kmc_oi.py:45 | the partial-pressure line is the decoded ratio times 0.01 |
| KmcIo.ListingShape | utils/kmc_oi.py:55-69 | "0\n" for a falsy count, otherwise one write per listed entry and a newline |
| KmcIo.EmptyListing | utils/kmc_oi.py:60-61 | a zero count writes "0\n" |
| KmcIo.EventBlockShape | utils/kmc_oi.py:78-91 | the type goes through the alias table, coverages through `str2zero`, and BEP_para is written iff the type is Reaction |
| KmcIo.CoverageWrite | utils/kmc_oi.py:82-87 | the coverage lines hold `str2zero` of each entry |
| KmcIo.UnknownStructureTouchesNothing | utils/kmc_oi.py:11-15 | a structure other than FCC or BCC fails before any file is opened |
| KmcIo.FailingRecordFails | utils/kmc_oi.py:93-94 | a record that raises makes the whole run answer False |
| KmcIo.SpecieWithoutSAds | utils/kmc_oi.py:41 | a species without 'S_ads' cannot be written |
| KmcIo.UnknownEventType | utils/kmc_oi.py:72-80 | an event type outside the four aliases cannot be written |
| KmcIo.SpeciesFailureKeepsOthers | utils/kmc_oi.py:18-46 | a failure in species.txt leaves input.txt complete and the later files as they were |
| Validator.Validate | views/validator.py:17-33 | true iff every character is in the flag's set; an unknown flag accepts everything |
| Validator.Clone | views/validator.py:14-15 | same flag, info bar and log, hence the same validation and key handling |
| Validator.OnCharPasses | views/validator.py:35-52 | a key passes iff it is unfiltered or its character is in the flag's set |
| Validator.OnCharAgreesWithValidate | views/validator.py:17-52 | for a known flag and printable key, OnChar passes iff Validate accepts the one-character text |
| Validator.UnknownFlagDisagrees | views/validator.py:33-61 | under an unknown flag every text validates yet no printable key passes |
| Validator.RejectedKeyMessage | views/validator.py:54-65 | a rejected key is swallowed silently, or with a bell and the flag's message on each attached widget |
| Validator.AcceptsConcat | views/validator.py:21-33 | a concatenation validates iff both parts do |
| Validator.EmptyAccepted | views/validator.py:17-33 | the empty text validates under every flag |
| Validator.PositiveWithinSigned | views/validator.py:7-8 | every POS_NUM_ONLY-valid text is NUM_ONLY-valid |
| Validator.SignsAndPointsAnywhere | views/validator.py:21-24 | only membership is checked: signs and points anywhere pass NUM_ONLY |
| DataClass.OrElse | views/dataclass.py:27-30 | a truthy value is kept, a falsy one replaced |
| DataClass.NewSpecie | views/dataclass.py:10-30 | raises iff default_name is missing or a key is undeclared; a built specie is normalised |
| DataClass.EncodeSpecie | views/dataclass.py:32-34 | a specie with no attribute assigned after construction encodes as an object with exactly the declared field names |
| DataClass.EncodeSpecieAfter | views/input_panel.py:975-977 | `__dict__` after `setattr`: the declared fields plus the later attributes, whose values win |
| DataClass.LaterAttributeRejected | views/dataclass.py:32-39 | the encoded `__dict__` decodes again iff every later attribute is a declared field, and raises TypeError otherwise |
| DataClass.SpecieRoundTrip | views/dataclass.py:26-39 | decoding an encoded specie gives its normalisation, and a normal specie exactly |
| DataClass.SpecieNormalFixed | views/dataclass.py:26-30 | normalisation fixes a normal specie and is idempotent |
| DataClass.SpecieDefaults | views/dataclass.py:12-30 | a specie from its default name alone: empty name, zero numbers, [1.0, 1.0] sticking, [0.0, 0.0, 0.0] E_ads_para, flags off |
| DataClass.NewProduct | views/dataclass.py:42-49 | raises iff default_name is missing or a key is undeclared; values kept as given |
| DataClass.ProductRoundTrip | views/dataclass.py:42-58 | every product survives the JSON round trip unchanged |
| DataClass.ProductCountsUntied | views/dataclass.py:46-49 | counts are not tied to the lists |
| DataClass.NewEvent | views/dataclass.py:61-77 | raises iff default_name is missing or a key is undeclared; a built event is normalised |
| DataClass.EventNormalFixed | views/dataclass.py:71-77 | normalisation fixes a normal event and is idempotent |
| DataClass.EventRoundTrip | views/dataclass.py:71-86 | decoding an encoded event gives its normalisation, and a normal event exactly |
| DataClass.EventDefaults | views/dataclass.py:63-77 | an event from its default name alone: empty name and type, two-site, [0, 0] coverages, [0.0, 0.0] BEP |
| Particle.EleColourTotal | views/particle.py:46-47 | every element gets a colour, and the default is none of the table's |
| Particle.TypeDefaultIsEdge | views/particle.py:36-50 | an unknown site label is drawn in the edge colour |
| Particle.MarkingLabelsColoured | views/particle.py:70-72 | the labels the marker writes, stripped, get their face, bulk, subsurface, edge or corner colour, and the misspelt `unkonwn` the default |
| Particle.SeveralTagsDefault | views/particle.py:70-72 | a label of two or more face tags falls back to the default colour |
| Particle.StripKeepsPrefix | views/particle.py:71 | stripping a text with a non-blank head keeps a prefix |
| Particle.MaxZ | views/particle.py:63 | the largest z coordinate, attained by some atom |
| Particle.NanoParticle.constructor | views/particle.py:53-63 | one element per position for a single symbol, the given list otherwise; zero colour rows; maxZ |
| Particle.NanoParticle.SetColors | views/particle.py:65-72 | 'ele' colours every row by element; 'site_type' colours row i by stripped label i, TypeError without labels and IndexError past the last row; any other type changes nothing |
| Particle.NanoParticle.ColourByElement | views/particle.py:66-68 | row i takes the colour of element i |
| Particle.NanoParticle.ColourByLabel | views/particle.py:69-72 | row i takes the colour of stripped label i while there is a row i, IndexError otherwise |

## Left out

- Params.GasRowOf: stops with NonFinite when rPP/P0 <= 0. numpy's `log` returns -inf or nan with a warning, and the source carries on with that entropy.
- Params.FaceRowOf: stops with FaceNonFinite when the area is zero. The source divides by it and carries an inf or nan spacing forward.
- Msr.CutOutcome: stops with NonFinite when a plane's norm is zero. numpy divides to inf or nan and the cut goes on.
- PyText.ParseReal: reads only an optional sign, digits and one point, with surrounding blanks. Python's `float()` also accepts exponents, "inf", "nan" and underscores between digits; on those the model raises ValueError where the source succeeds.
- sqrt, exp, ln: `np.sqrt`, `np.exp` and `np.log` are unconstrained parameters. No property depends on their values.
- Msr.Wulff.GenCoverage: fsolve and its random starting points are not modelled.
  - The roots are parameters. `requires Accepted` stands for the `while True` loop of utils/msr.py:362-366.
  - That loop only exits with an accepted root and may never exit. Its non-termination is not modelled.
- Marking.MarkAtoms: labels are unbounded strings. numpy's `<U32` array truncates a label longer than 32 characters; that is not modelled.
- Msr.Wulff.Geometry: writes no files. The xyz file, `ini.xyz`, the `record_df` table and `faceinfo.txt` are left out. Of `record_df`, only the `number` row's figures are kept in the particle record.
- Msr.Wulff.GetPara: after an exception, and after the `(False, "Please check the face index of face N")` return, the fields beyond the header, the radius and `nGas` are left unspecified; the face tables are not promised to hold faces 0..N-1. Arrays the source has already appended to (for example `A_atoms` before a surface-energy ValueError) are not tracked.
- Lattice.HexLoops: computes the four-index components exactly, kept times 3. The source computes them in float thirds and truncates with `int()`, which can round a component down by one. The HCP `get_planes` also returns float components; the model returns integers.
- Lattice.ListOfSet: the order of `list(set(...))` is left open. Only its elements and the absence of duplicates are stated.
- Lattice.GetPlanes: the sign loops are written as one loop over the sign rounds. The HCP branch's four nested loops likewise run as one loop over 16 rounds, in the same order.
- Params.FaceRowOf: the HCP area is not computed. `latt_para_c` is never read, so the source divides by 0.0 and raises ZeroDivisionError, and the model raises it too. As a result, `gen_hcp` and the HCP branch of `geometry` are never reached.
- Msr.Wulff.Geometry: HCP and any structure without a bulk generator are excluded by the object's loaded state, which needs a face accepted on a cubic structure or no faces at all.
- CustomMsr: the older copy's `get_para` is modelled only through its area test (func/Custom_msr.py:295-316). The rest of it differs from the main engine, and is not modelled:
  - it reads differently named keys (`num_faces`, `{m}_index`, `{m}_E_ads_Gas1`, ...);
  - it keeps `S_gas` without the `- k_b ln(rPP/P0)` correction;
  - it sets neither the bond length nor `face_d`.
- CustomMsr: also not modelled:
  - its `gen_coverage`, whose exponent adds `T·S_gas` where the main engine subtracts `T·(S_ads - S_gas)`;
  - its `gen_surface_energies` without `planes_dict` (the main model covers it);
  - the `showerror` dialog and file writes of its `geometry`.
- KmcIo.KmcDisk.WriteKmcInp: Python's `str()` of values is the `text` parameter. Writing `li.txt` with `np.savetxt` is the `saveLi` parameter. `json.loads` of the records is not modelled: records arrive decoded.
- KmcIo.KmcDisk.WriteKmcInp: the bare `except:` is modelled as answering False. The file contents up to the failure are kept; open files and partially written lines are not.
- Validator.Clone: the copy is a value. wx object identity and the event binding of the constructor are not modelled.
- Validator.OnChar: `event.Skip()`, `wx.Bell()`, `ShowMessage` and `WriteText` become a verdict value. `IsSilent()` is a parameter.
- Validator.Validate: reads the field's text as a parameter in place of `GetWindow().GetValue()`.
- DataClass.EncodeSpecie: the `Specie` record holds only its declared fields. The encoder emits `o.__dict__`, which also holds attributes assigned later; the species pane assigns `S_ads` and `sticking0` this way (views/input_panel.py:977). Such a record is modelled by `DataClass.EncodeSpecieAfter`, and `DataClass.LaterAttributeRejected` shows that its decoding raises TypeError. The species record that `KmcIo` writes arrives as decoded JSON, not as a `Specie`.
- DataClass.NewSpecie: the dataclass is a value. `__post_init__`'s in-place update is folded into the construction function, and field types are not checked (Python does not check them either).
- Particle.NanoParticle.constructor: requires at least one position. `np.max` on an empty array raises ValueError, which a constructor here cannot return.
- Particle.NanoParticle.constructor: `covTypes` and `TOFs` are stored but never read; `np.array(None)` is modelled as `None`.
- Floating point: all arithmetic is exact. Rounding, overflow and the `%.3f`/`%.2f` formats are not modelled.
- Unicode: `str.strip`, `str.split` and digit tests cover ASCII blanks and digits only.
- The GUI (wxPython and tkinter panels, OpenGL drawing, plots), `gen_hcp` (unreachable, see above), and the `__main__` blocks are not part of this model.
