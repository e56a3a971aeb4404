# CENSO utilities and functional settings, modelled in Dafny

This project models the bookkeeping core of CENSO, the conformer-ensemble
sorting program. It covers the helpers in `censo_qm/utilities.py` that move
conformer records between the working lists, read the ensemble file and
convert coordinates. It also covers the helpers that rotate backup files,
compute the statistics CENSO prints, and lay out its tables. From
`censo_qm/cfg.py` it models the queries of `dfa_settings` over the
functional tables and the dictionary round trip of `NmrRef`.

Modelling choices:

- **Numbers.** Python floats are Dafny `real`s, with no rounding. `math.exp`
  and `math.sqrt` are function parameters. Each proof states, in a
  `requires`, the one fact it needs of them: `exp` is positive (and, for
  ordering, increasing); `sqrt` returns a non-negative root of a non-negative
  number.
- **Files and folders.** The file system is a `Disk`: a set of folder paths
  and a map from file paths to their lines. Whether `mkdir_p` can create a
  folder is a parameter `canCreate`. The enso.tags file that the external
  CREST program writes is a parameter `tags`, which is `None` when it cannot
  be read.
- **In-place updates.** Functions that update lists in place are methods on
  classes: `ConformerLists` (conformers, prev_calculated, store_confs,
  save_errors), `Disk` and `Folder`. Each method is proved against a
  specification function, and its loops carry invariants.
- **Exceptions.** Exceptions are values: `Result`/`Option` with a `PyError`
  (IndexError, ValueError, ZeroDivisionError, NameError, ...). Where the
  source lets one escape, the model returns it.
- **Module layout.** One module per concern:
  - `Builtins`: Python built-ins on strings and lists;
  - `Paths`: `os.path` helpers;
  - `Sorting`: a stable sort by key;
  - `FixedPoint`: the `.{d}f` number format and its reading back by `float()`;
  - `Ranking`: rank_simple and rankdata;
  - `Statistics`: pearson, spearman, the standard deviations and isclose;
  - `Coordinates`: t2x and x2t;
  - `Ensemble`: check_for_float, get_energy_from_ensemble and ensemble2coord;
  - `Backup`: splitting and move_recursively;
  - `WorkingSet`: new_folders, check_for_folder and crest_routine;
  - `Boltzmann`: calc_boltzmannweights;
  - `Triage`: check_tasks;
  - `TextUtil`: frange and format_line;
  - `Report`: printout;
  - `DfaSettings`: the functional queries;
  - `NmrRef`: the shielding-table dictionary round trip.

Behaviours of the source that the model keeps as written and proves things
about:

- `move_recursively` selects names with a substring test.
  - Two names whose suffixes differ only in leading zeros (`f.2`, `f.02`) are
    renamed to the same `f.3`, and one file is lost.
  - A file `f.0` is renamed to `f.1` and then overwritten by the bare `f`.
  - Without such names, the rotation is collision-free and loses nothing.
- `pearson` with fewer than two values divides by zero outside its `try`.
- `calc_boltzmannweights` takes the minimum of `property` but puts
  `free_energy` in the exponent.
- `get_energy_from_ensemble` names its exception handler `e`, which unbinds
  the energy dictionary `e`: a conformer after one without an energy raises
  NameError.
- The relay `"wb97m-V"` points at no key of `functionals`, whose key is
  `"wb97m-v"`, so it is never offered.

## Model

| member | source | states |
|---|---|---|
| Builtins.PyIndex | censo_qm/utilities.py:264 | `data[k]` with Python indexing: a non-negative index below the length, or a negative one down to minus the length, counted from the end; IndexError (None) exactly outside that range |
| Builtins.PySlice | censo_qm/utilities.py:311 | `data[start:end]` clamps its bounds; for in-range bounds it is exactly the sub-list, and never longer than the list |
| Builtins.RemoveAt | censo_qm/utilities.py:429 | `pop(i)` leaves a list one shorter whose multiset plus the popped element is the old multiset |
| Builtins.IndexOf | censo_qm/utilities.py:429 | `list.index(x)` is the first position holding x, and fails exactly when x is absent |
| Builtins.WordsOfJoin | censo_qm/utilities.py:214 | `str.split()` of space-joined non-empty words without whitespace gives the words back |
| Builtins.ParseIntOfString | censo_qm/utilities.py:361 | `int(str(k)) == k` for every integer |
| Builtins.FindLast | censo_qm/utilities.py:336 | the split point of `rsplit(".", 1)`: a '.' with no '.' after it, or none when there is no '.' at all |
| Builtins.FindChar | censo_qm/utilities.py:561-566 | the split point of `split("[")`: the first '[' with none before it, or none when there is no '[' |
| Paths.Basename | censo_qm/utilities.py:236 | `os.path.basename` is the '/'-free tail of the path |
| Paths.SplitLast | censo_qm/utilities.py:236-239 | basename and dirname of `d/c` are c and d |
| Paths.LastFoldersOfPath | censo_qm/utilities.py:228-245 | `last_folders(a/b/c/d, n)` is `c/d` for 2, `b/c/d` for 3 and `d` for 1 or any other number |
| Ranking.RankSimple | censo_qm/utilities.py:472-476 | the result is a permutation of the positions, ordered by the value at each position, so the values read through it are the list's values in ascending order |
| Ranking.TieBlockRank | censo_qm/utilities.py:490-495 | `sumranks / dupcount + 1` of a finished run of equal values is the mean 1-based position that value occupies in ascending order |
| Ranking.TieBlockRanks | censo_qm/utilities.py:486-497 | the tie loop writes, at every position, the average rank of the value there |
| Ranking.RankData | censo_qm/utilities.py:479-498 | `rankdata` equals the rank function: each entry's rank is the mean 1-based position of its ties in the sorted order |
| Ranking.RanksExample | censo_qm/utilities.py:479-498 | `rankdata([3, 1, 2, 2]) == [4, 1, 2.5, 2.5]` |
| Ranking.RanksOrder | censo_qm/utilities.py:479-498 | a smaller value gets a strictly smaller rank and equal values get equal ranks |
| Ranking.RanksMonotone | censo_qm/utilities.py:479-498 | ranks do not change under a strictly increasing transformation of the values |
| Statistics.Pearson | censo_qm/utilities.py:501-520 | fewer than two values raise ZeroDivisionError (the division by `n - 1` is outside the `try`); a shorter B raises IndexError; otherwise a value is returned |
| Statistics.CaughtRatio | censo_qm/utilities.py:514-520 | the caught division: 0.0 for a zero denominator, otherwise the quotient times the denominator is the numerator |
| Statistics.PearsonSelf | censo_qm/utilities.py:501-520 | `pearson(A, A)` is 1 for a non-constant list and 0 (the caught zero division) for a constant one |
| Statistics.PearsonSymmetric | censo_qm/utilities.py:501-520 | `pearson(A, B) == pearson(B, A)` for lists of equal length |
| Statistics.Spearman | censo_qm/utilities.py:523-527 | `spearman(A, B)` is `pearson` of the two rank lists |
| Statistics.SpearmanMonotone | censo_qm/utilities.py:523-527 | the rank correlation is unchanged when either list is transformed by a strictly increasing function |
| Statistics.SpearmanSelf | censo_qm/utilities.py:523-527 | a list has rank correlation 1 with itself unless it is constant (then 0) |
| Statistics.CalcStdDev | censo_qm/utilities.py:821-829 | defined exactly for two or more values (ZeroDivisionError otherwise); the result is non-negative and its square times `n - 1` is the sum of squared deviations from the mean |
| Statistics.SampleVariance | censo_qm/utilities.py:827 | the variance is non-negative and, times `n - 1`, gives the sum of squared deviations |
| Statistics.StdDevZero | censo_qm/utilities.py:821-829 | the standard deviation is zero exactly for a constant list |
| Statistics.WeightedStdDev | censo_qm/utilities.py:832-850 | an empty list gives 0.0 and every computed value is non-negative |
| Statistics.CalcWeightedStdDev | censo_qm/utilities.py:832-850 | the method with its counting loop returns the weighted standard deviation |
| Statistics.CountNonZero | censo_qm/utilities.py:842-845 | the loop counts the nonzero weights |
| Statistics.WeightedStdDevUnit | censo_qm/utilities.py:839-850 | missing or too few weights give exactly `calc_std_dev` of the data |
| Statistics.IsCloseSymmetric | censo_qm/utilities.py:812-818 | `isclose` is symmetric, and reflexive when a tolerance is not negative |
| Statistics.IsCloseToZero | censo_qm/utilities.py:812-818 | with `abs_tol = 0` and `rel_tol < 1` only 0 is close to 0 |
| Coordinates.FloatAt | censo_qm/utilities.py:117-119 | `float(line.split()[i])` raises IndexError past the last token and ValueError for a token that is not a number |
| Coordinates.ParseLines | censo_qm/utilities.py:114-120 | the lines are read exactly when each one parses; one atom per line, in order |
| Coordinates.AngstromOfBohr | censo_qm/utilities.py:117 | converting to bohr (`/ BOHR2ANG`) and back (`* BOHR2ANG`) gives the same atom |
| Coordinates.CoordFile | censo_qm/utilities.py:163-166 | a coord file is `$coord`, one line per atom, `$end` |
| Coordinates.CoordBody | censo_qm/utilities.py:114-116 | `t2x` reads from the second line up to, not including, the first line containing '$' |
| Coordinates.X2t | censo_qm/utilities.py:142-166 | `x2t` writes the coord file of the atoms of lines 3 onward converted to bohr, or raises the first line's parse error |
| Coordinates.T2x | censo_qm/utilities.py:95-139 | the method with its reading loop, and the xyz lines built as a sequence comprehension, computes the xyz lines and the atom count of the specification function |
| Coordinates.CoordLineRoundTrip | censo_qm/utilities.py:117-120 | for a formatter that `float()` reads back as some rounding `rnd` of the value, a coord line as `x2t` writes it holds no '$' and reads back under `t2x` as the atom with each coordinate rounded by `rnd` |
| Coordinates.CoordRoundTrip | censo_qm/utilities.py:114-120 | under the same premise, the whole coord file `x2t` writes reads back under `t2x` as the atoms with rounded coordinates |
| Coordinates.T2xOfX2t | censo_qm/utilities.py:95-166 | under the same premise, `t2x(x2t(xyz))` gives one atom per atom line of the xyz file: each converted to bohr, rounded as printed and converted back |
| Coordinates.XyzLineRoundTrip | censo_qm/utilities.py:123-128 | under the same premise, an xyz line with the element title-cased reads back under `x2t` as the atom with rounded coordinates |
| Coordinates.X2tOfT2x | censo_qm/utilities.py:123-139 | under the same premise, the xyz file `t2x` writes reads back under `x2t` as the atoms with rounded coordinates |
| Coordinates.FixedFormatsAs | censo_qm/utilities.py:159 | the premise is satisfiable: the fixed-point format with d >= 1 digits reads back as the value rounded half up to d digits |
| Coordinates.X2tFormatsAs | censo_qm/utilities.py:159 | the `.14f` format of `x2t` reads back as the value rounded to 14 digits |
| Coordinates.T2xOfX2tWithin | censo_qm/utilities.py:95-166 | with the `.14f` format, `t2x(x2t(xyz))` is the xyz file's atoms rounded in bohr, and each coordinate is within half a unit of the 14th digit (in bohr) of the input's, the elements unchanged |
| Coordinates.RereadWithin | censo_qm/utilities.py:117-159 | when printing rounds by at most eps, every re-read coordinate is within `eps * BOHR2ANG` Ångström of the original and the element is kept |
| Coordinates.RereadExact | censo_qm/utilities.py:117-159 | when the rounding leaves the bohr coordinates unchanged, the round trip gives back exactly the atoms |
| FixedPoint.RoundToWithin | censo_qm/utilities.py:159 | rounding half up to d digits moves a value by at most half a unit of the d-th digit |
| FixedPoint.FixedReadsBack | censo_qm/utilities.py:159 | the `.{d}f` text of a value, d >= 1, is a non-empty number token that `float()` reads as the value rounded to d digits |
| Ensemble.FirstSome | censo_qm/utilities.py:216-224 | None exactly when no token converts; otherwise the value of the first token that converts |
| Ensemble.CheckForFloat | censo_qm/utilities.py:212-225 | a returned value is the value of one of the line's tokens |
| Ensemble.CheckForFloatFirst | censo_qm/utilities.py:212-225 | a line that starts with a number returns that number |
| Ensemble.BlockLayout | censo_qm/utilities.py:309-310 | conformer i's energy sits on line `(i-1)(nat+2)+1`; its atom block starts on the next line and holds `nat` lines, two lines before the next block |
| Ensemble.ById | censo_qm/utilities.py:262 | the conformers are permuted into ascending id order |
| Ensemble.EnergiesRead | censo_qm/utilities.py:263-264 | the energy lines are read exactly when each conformer's line index exists (IndexError otherwise); each energy is `check_for_float` of its conformer's line |
| Ensemble.ReadEnergies | censo_qm/utilities.py:263-264 | the loop reads the energies of the specification function |
| Ensemble.Valid | censo_qm/utilities.py:266 | the non-None energies, exactly |
| Ensemble.MinOf | censo_qm/utilities.py:266 | `min` is one of the values and no larger than any |
| Ensemble.FirstNone | censo_qm/utilities.py:270-276 | the position of the first conformer without an energy: every earlier one has one, and it is the length when all have one |
| Ensemble.GetEnergyFromEnsemble | censo_qm/utilities.py:248-277 | the list is sorted by id in any case; a missing line raises IndexError; with no valid energy, None is returned and nothing is assigned; otherwise the conformers up to and including the first without an energy get their energies, and NameError is raised exactly when another conformer follows it, which keeps its old energies |
| Ensemble.AssignEnergiesAsWritten | censo_qm/utilities.py:270-276 | the loop as written: assigns up to the first conformer without an energy, then raises NameError if any conformer is left |
| Ensemble.GetEnergyFromEnsembleCorrected | censo_qm/utilities.py:248-277 | with the handler not rebinding `e`: the same IndexError and None cases, and otherwise every conformer gets its energy and its relative energy and the list is returned |
| Ensemble.AssignEnergies | censo_qm/utilities.py:270-276 | the corrected loop sets every conformer's two energies as the specification says |
| Ensemble.NameErrorExample | censo_qm/utilities.py:268-276 | conformers 1 and 2 with one atom each, the first energy line unreadable and the second -10: the energies read are None and -10, another conformer follows the None, and conformer 2 would have been changed by the assignment the NameError prevents |
| Ensemble.RelativeEnergies | censo_qm/utilities.py:265-277 | in the corrected loop, every assigned relative energy is at least 0 and some conformer gets exactly 0 |
| Ensemble.WriteCoord | censo_qm/utilities.py:319-326 | writing one coord file leaves every existing file unchanged and adds at most that path |
| Ensemble.Ensemble2Coord | censo_qm/utilities.py:280-327 | folders are unchanged, and the files and the exception are those of the conformer-by-conformer specification |
| Ensemble.CoordsWrittenStops | censo_qm/utilities.py:303-326 | after an exception no later conformer is written |
| Ensemble.NeverOverwrites | censo_qm/utilities.py:303-326 | no existing file is changed, and every new file is the coord path of a listed conformer |
| Backup.Splitting | censo_qm/utilities.py:330-338 | IndexError exactly when the name has no '.'; otherwise the integer after the last '.', or 0 |
| Backup.Suffix | censo_qm/utilities.py:355-359 | a name with an integer suffix has that suffix as its sort key |
| Backup.MatchedNamesMembers | censo_qm/utilities.py:349-352 | the selected names are exactly the listed names that contain `filename + "."` anywhere |
| Backup.MatchedNamesSub | censo_qm/utilities.py:349-352 | the selection takes each listed name at most as often as it is listed |
| Backup.MatchingNames | censo_qm/utilities.py:349-352 | the selection loop returns the selected names in listing order |
| Backup.ByKeyDesc | censo_qm/utilities.py:353 | the names are permuted into non-increasing key order |
| Backup.EqualKeysInOrder | censo_qm/utilities.py:353 | the sort is stable: names with equal keys keep their order |
| Backup.LargerKeyFirst | censo_qm/utilities.py:353 | a name with a larger key comes first |
| Backup.RenameInOrder | censo_qm/utilities.py:354-364 | the rename loop performs the renames of the specification, in order |
| Backup.MoveRecursively | censo_qm/utilities.py:341-368 | the folder afterwards is the loop's renames followed by the move of the bare name to `filename.1` |
| Backup.BumpedName | censo_qm/utilities.py:361 | a renamed file keeps its prefix and its suffix grows by one |
| Backup.MatchedBumped | censo_qm/utilities.py:351-361 | a renamed name still contains `filename + "."` |
| Backup.BumpedInjective | censo_qm/utilities.py:361 | two names with canonical integer suffixes are renamed to the same name only if they are the same |
| Backup.SourcesPresent | censo_qm/utilities.py:354-364 | every name is still there when the loop reaches it |
| Backup.TargetFree | censo_qm/utilities.py:353-364 | processing suffixes in descending order, no rename targets a name that still exists (canonical suffixes, no `filename.0`) |
| Backup.OneFree | censo_qm/utilities.py:366-368 | after the loop `filename.1` is free for the bare file |
| Backup.MoveKeepsEverything | censo_qm/utilities.py:341-368 | every file ends up, with its content, under its new name, and no other name exists afterwards |
| Backup.NewNameInjective | censo_qm/utilities.py:341-368 | different files get different new names |
| Backup.RotationExample | censo_qm/utilities.py:341-368 | `{f, f.1, f.3}` becomes `{f.1, f.2, f.4}` with the contents moved along |
| Backup.LeadingZeroCollision | censo_qm/utilities.py:353-364 | `f.2` and `f.02` are both renamed to `f.3`, and only the content of `f.02` survives |
| Backup.ZeroSuffixCollision | censo_qm/utilities.py:354-368 | `f.0` is renamed to `f.1` and then overwritten by the bare `f` |
| WorkingSet.Mkdir | censo_qm/utilities.py:421-425 | the folder is there afterwards exactly when creating it succeeded or it existed |
| WorkingSet.NewFolders | censo_qm/utilities.py:414-432 | the lists and folders after `new_folders` are those of the as-written walk; each removed conformer is appended to store_confs with its error message |
| WorkingSet.WalkAsWritten | censo_qm/utilities.py:419-429 | the pop-while-iterating loop computes the as-written outcome, one message per removed conformer |
| WorkingSet.AsWrittenConserves | censo_qm/utilities.py:414-432 | kept and removed conformers together are the input multiset: nothing is lost or duplicated |
| WorkingSet.AsWrittenRemovesFailed | censo_qm/utilities.py:421-429 | only a conformer whose folder was missing and could not be created is removed |
| WorkingSet.SkippedAfterFailure | censo_qm/utilities.py:419-429 | after a failed conformer the next one is not looked at and stays in the list, although its folder is missing too |
| WorkingSet.AsWrittenWithoutFailure | censo_qm/utilities.py:414-432 | when every folder can be created, nothing is removed and the corrected walk agrees |
| WorkingSet.NewFoldersCorrected | censo_qm/utilities.py:414-432 | `new_folders` iterating over a copy: lists and folders as the intended walk says |
| WorkingSet.WalkIntended | censo_qm/utilities.py:419-429 | the loop over a copy computes the intended outcome |
| WorkingSet.IntendedSeparates | censo_qm/utilities.py:414-432 | nothing is lost or duplicated; every kept conformer has its folder and no removed one has |
| WorkingSet.NeverCreated | censo_qm/utilities.py:421-425 | a missing folder that cannot be created stays missing |
| WorkingSet.CheckForFolder | censo_qm/utilities.py:435-450 | the flag is set exactly when some listed conformer's folder does not exist |
| WorkingSet.NothingMissingAfterNewFolders | censo_qm/utilities.py:414-450 | after the corrected `new_folders`, `check_for_folder` finds no kept conformer missing |
| WorkingSet.AllConfs | censo_qm/utilities.py:661-665 | both lists together, permuted into ascending optimisation energy |
| WorkingSet.Frame | censo_qm/utilities.py:680-688 | a frame is the atom-count line, the energy/name line and the xyz lines |
| WorkingSet.WriteFrames | censo_qm/utilities.py:679-688 | the loop writes the frames of the specification, stopping at the first `t2x` exception |
| WorkingSet.FramesStop | censo_qm/utilities.py:679-688 | after an exception no later frame is written |
| WorkingSet.FramesLength | censo_qm/utilities.py:679-688 | the frames hold two lines per conformer plus one per atom |
| WorkingSet.T2xCount | censo_qm/utilities.py:139 | `t2x` reports as many atoms as it returns lines |
| WorkingSet.KeepOf | censo_qm/utilities.py:743-744 | the survivors are the second token of each tags line without its first character; a line with fewer than two tokens raises |
| WorkingSet.ReadKeep | censo_qm/utilities.py:743-744 | the reading loop returns those survivors |
| WorkingSet.Kept | censo_qm/utilities.py:745-762 | the conformers whose `CONF<id>` survives, exactly |
| WorkingSet.SortedOut | censo_qm/utilities.py:745-762 | the conformers whose `CONF<id>` does not survive, exactly |
| WorkingSet.Sift | censo_qm/utilities.py:745-753 | the removal loop keeps the survivors in order and stores the others marked calculated/removed |
| WorkingSet.SiftConserves | censo_qm/utilities.py:745-762 | survivors and removed conformers together are the list: nothing is lost or duplicated |
| WorkingSet.SiftLists | censo_qm/utilities.py:741-762 | both working lists are sifted and the removed ones appended to store_confs |
| WorkingSet.CrestRoutine | censo_qm/utilities.py:639-765 | conformers.xyz holds every frame twice; survivors stay in order and the others move to store_confs; with `crestcheck` off, an unreadable tags file or a malformed line, nothing moves |
| Boltzmann.Temperature | censo_qm/utilities.py:383-389 | an unconvertible temperature becomes 298.15 K and 0 becomes 0.00001; the result is never 0 |
| Boltzmann.MinFree | censo_qm/utilities.py:390-399 | the least value of the property, or none when no conformer has it |
| Boltzmann.Weighted | censo_qm/utilities.py:405-410 | each conformer's weight is its factor divided by the partition sum |
| Boltzmann.BoltzmannWeights | censo_qm/utilities.py:371-411 | one conformer gets weight 1.0; only the weights change; NameError exactly when there is more than one conformer and none has the property; ZeroDivisionError only for a zero partition sum |
| Boltzmann.CalcBoltzmannWeights | censo_qm/utilities.py:371-411 | the method with its two loops returns the specified weights or error |
| Boltzmann.PartitionSum | censo_qm/utilities.py:400-404 | the first loop sums the conformers' factors |
| Boltzmann.SetWeights | censo_qm/utilities.py:405-410 | the second loop sets every weight to factor over sum |
| Boltzmann.WeightsSumToOne | censo_qm/utilities.py:371-411 | computed weights add up to 1 |
| Boltzmann.WeightsAreProbabilities | censo_qm/utilities.py:371-411 | with a positive `exp` and degeneracies, and one conformer with the property, the weights are computed and each lies in (0, 1] |
| Boltzmann.LowerEnergyHeavier | censo_qm/utilities.py:402-410 | at a positive temperature, of two conformers with equal degeneracy the lower free energy gets the larger weight |
| Triage.FailRate | censo_qm/utilities.py:799 | the failure rate lies between 0 and 1 |
| Triage.CheckTasks | censo_qm/utilities.py:789-809 | the counting loop returns the verdict of the decision function |
| Triage.VerdictCases | censo_qm/utilities.py:789-809 | exit exactly for no results or a reached threshold with `check`; warning exactly for a reached threshold without `check`; silence exactly below it |
| Triage.VerdictByRate | censo_qm/utilities.py:799-809 | with results, the verdict is decided by the failure rate against `thresh` |
| Triage.MoreFailuresNoMilder | censo_qm/utilities.py:789-809 | more failed jobs never give a milder verdict |
| Triage.FiveJobs | censo_qm/utilities.py:789-809 | 2 of 5 failed with `thresh = 0.25` and `check` exits; 1 of 5 is silent |
| TextUtil.PadLeft | censo_qm/utilities.py:604-608 | right alignment: the text at the end of a field of the width, spaces before it |
| TextUtil.PadRight | censo_qm/utilities.py:783-784 | left alignment: the text at the start of a field of the width, spaces after it |
| TextUtil.FRange | censo_qm/utilities.py:37-57 | the values are `lo + k * step` below `hi` (bounds swapped when start > end), and one more step would reach `hi` |
| TextUtil.FRangeWithin | censo_qm/utilities.py:37-57 | every value lies in `[lo, hi)` and the values increase |
| TextUtil.ListRepr | censo_qm/utilities.py:773 | `str(options)` of options without quotes, backslashes or non-printable characters is bracketed, and its length is the option lengths plus 2 per option |
| TextUtil.KeptCount | censo_qm/utilities.py:774-779 | the options kept are those whose running count stays below the limit, up to the first that reaches it |
| TextUtil.Reduced | censo_qm/utilities.py:774-781 | the reduced list ends with "..." |
| TextUtil.ReduceOptions | censo_qm/utilities.py:774-781 | the reducing loop returns the reduced list |
| TextUtil.FormatLineOf | censo_qm/utilities.py:768-786 | ValueError exactly when the key is longer than `dist_to_options` |
| TextUtil.FormatLine | censo_qm/utilities.py:768-786 | the method returns the formatted line of the specification |
| TextUtil.FormatLineAligned | censo_qm/utilities.py:783-785 | the key, then the value at column `len(key) + 2`, then " # " at column `dist + 2`, and the line ends with "] \n" |
| TextUtil.FormatLineOptions | censo_qm/utilities.py:768-786 | a short option list is shown whole; a long one is shown as its kept prefix followed by "..." |
| Report.LengthWarningMissed | censo_qm/utilities.py:544-550 | with two headers for three columns the written check stays silent, although the lists do not match |
| Report.LengthWarningGuards | censo_qm/utilities.py:544-550 | the corrected check is silent exactly when all three lists match `columncall` |
| Report.SplitDescription | censo_qm/utilities.py:559-566 | a description with '[' that is not a unit is cut at its first '['; the second part starts with '[' and ends before the next one |
| Report.SplitRejoins | censo_qm/utilities.py:559-566 | with a single '[' the two parts rejoin to the description |
| Report.SplitDescriptions | censo_qm/utilities.py:559-566 | the split loop rewrites both description lists entry by entry |
| Report.ColumnWidth | censo_qm/utilities.py:569-579 | the widest formatted value of a column, or an exception when one value cannot be formatted or the column is empty |
| Report.ColumnLengthsOf | censo_qm/utilities.py:567-602 | every column whose width could be computed is at least as wide as its values and its labels |
| Report.ColumnLengths | censo_qm/utilities.py:567-602 | the width loop keeps the widths computed so far and, after an exception, appends 12 for every column |
| Report.MeasureColumns | censo_qm/utilities.py:568-598 | the loop stops at the first column whose width raises |
| Report.NotFoundFrom | censo_qm/utilities.py:567-602 | a column whose width raises leaves it and every later column uncomputed |
| Report.HeaderLines | censo_qm/utilities.py:604-619 | the header loop writes the header, description and second-description lines |
| Report.CellsOf | censo_qm/utilities.py:622-628 | a row's texts, one per column, or ValueError |
| Report.CellsOfErrs | censo_qm/utilities.py:622-628 | a row raises exactly when one of its values cannot be formatted |
| Report.FormatRow | censo_qm/utilities.py:622-628 | the cell loop returns the row's texts |
| Report.Written | censo_qm/utilities.py:620-636 | the lines written are the rows before the first exception, which ends the loop |
| Report.WriteRows | censo_qm/utilities.py:620-636 | the row loop writes those lines and reports that exception |
| Report.WrittenStops | censo_qm/utilities.py:620-636 | nothing after a raising row is written |
| Report.PrintoutOf | censo_qm/utilities.py:543-566 | the conformers are sorted by id, as a permutation; the description lists are returned as rewritten in place, each description cut at its first '[' and the rest moved to the second descriptions |
| Report.Printout | censo_qm/utilities.py:530-636 | the method returns the specified sorted list, rewritten description lists, lines and exception |
| Report.TableAligned | censo_qm/utilities.py:530-636 | with formattable values every header line has the table width and every row has it too, plus the marker on the lowest-free-energy row |
| Report.RowsFit | censo_qm/utilities.py:622-636 | a row of fitting values has the table width, plus the marker when its free energy is `minfree` |
| Report.EmptyTable | censo_qm/utilities.py:567-619 | with no conformers every column falls back to width 12 and only the header lines are written |
| Report.RowsRaise | censo_qm/utilities.py:622-628 | the rows raise exactly when some formatted column holds a text value, and the exception is ValueError |
| Report.RowErrors | censo_qm/utilities.py:530-636 | the printout ends in an exception exactly when some formatted column holds a text value |
| DfaSettings.Lookup | censo_qm/cfg.py:749 | `functionals.get(name)`: None exactly when the name is not a key; otherwise that key's entry |
| DfaSettings.KeysWhere | censo_qm/cfg.py:708-712 | a comprehension over the table keeps exactly the keys whose entry passes, each once |
| DfaSettings.DispIncludedExactly | censo_qm/cfg.py:705-712 | `disp_already_included_in_func()` lists exactly the keys whose disp is "included" or "composite", each once |
| DfaSettings.HybridExactly | censo_qm/cfg.py:722-729 | `hybrid_dfa()` lists exactly the keys of type global_hybrid, rsh_hybrid or composite_hybrid, each once |
| DfaSettings.DhAsWrittenListsHybrid | censo_qm/cfg.py:714-720 | the substring test lists an entry of type "hybrid", which is not a double hybrid |
| DfaSettings.DhExactly | censo_qm/cfg.py:714-720 | the corrected `dh_dfa()` lists exactly the keys of type "doublehybrid", each once |
| DfaSettings.DhAgreesOnKnownKinds | censo_qm/cfg.py:714-720 | on tables whose types are among the known ones, the written and corrected `dh_dfa` agree |
| DfaSettings.ShippedDhAgrees | censo_qm/cfg.py:194-720 | on the shipped table the written `dh_dfa` gives the double hybrids |
| DfaSettings.RelaysWhere | censo_qm/cfg.py:748-750 | a relay name is kept exactly when its target is a key whose entry passes |
| DfaSettings.InfosDefined | censo_qm/cfg.py:731-779 | `infos` answers exactly for one of the seven part names with no program, "tm" or "orca" |
| DfaSettings.InfosMembers | censo_qm/cfg.py:731-775 | the answer is exactly the functionals for the part (usable with the program) and the relays whose target is such a functional |
| DfaSettings.InfosProgNarrows | censo_qm/cfg.py:752-775 | naming a program only narrows the answer |
| DfaSettings.UnusableNeverListed | censo_qm/cfg.py:745-775 | a name that is not a key and whose relays all point at missing or unusable entries is never listed |
| DfaSettings.B97dOffered | censo_qm/cfg.py:417-431 | "b97-d" is offered for "func" when no program is named |
| DfaSettings.B97dNotForOrca | censo_qm/cfg.py:417-431 | "b97-d" is not offered for ORCA, whose name for its target is None |
| DfaSettings.Wb97mVNeverListed | censo_qm/cfg.py:191 | the relay "wb97m-V" targets no key and is never offered |
| NmrRef.KeyInjective | censo_qm/cfg.py:3791-3802 | the ten tables go under ten different keys |
| NmrRef.ToDict | censo_qm/cfg.py:3789-3803 | `NMRRef_to_dict()` holds every table under its key, and nothing else |
| NmrRef.FromDict | censo_qm/cfg.py:3805-3838 | `dict_to_NMRRef` takes each table from its key, or the default when the key is missing |
| NmrRef.RoundTrip | censo_qm/cfg.py:3789-3838 | `dict_to_NMRRef(NMRRef_to_dict())` reproduces all ten tables |
| NmrRef.EmptyGivesDefaults | censo_qm/cfg.py:3805-3838 | a dict without any of the keys gives the defaults |
| NmrRef.OnlyKeysRead | censo_qm/cfg.py:3805-3838 | dicts that agree on the ten keys give the same result: nothing else is read |
| NmrRef.ExportAfterRead | censo_qm/cfg.py:3789-3838 | reading a dict and exporting it again gives each given table, and the default for each missing one |

## Left out

- The `print` override, `print_block`, every console message and the output file of `printout` as a file: only the lines it writes are modelled.
- `write_trj`, `write_anmrrc`, `do_md5` and `mkdir_p` are not part of this model. They are file writing, hashing or plain folder creation; `mkdir_p`'s outcome is the parameter `canCreate`.
- The CREST subprocess call and the `time.sleep` calls are left out. The enso.tags file CREST writes is a parameter, and the copy of the first conformer's coord file is a file copy on the `Disk`.
- WorkingSet.CrestRoutine: assumes the `mkdir_p` of conformer_rotamer_check succeeds, whereas `new_folders` takes that outcome as the parameter `canCreate`; a failure to create the folder, and the error writing into it would then raise, is not modelled.
- Floating point: values are reals, so IEEE rounding is not modelled. Number formatting is a parameter `fmt`, `fixed` or `show`. For the coordinate codec the round trips take `fmt` together with the rounding `rnd` that `float()` reads back from its text (`FormatsAs`). `FixedPoint` models the `.{d}f` format as rounding half up in decimal, and `T2xOfX2tWithin` uses it for the `.14f` of `x2t`. Python rounds the binary double to nearest-even instead, which can differ in the last digit. The `.10f` of `t2x` and the `.8f` of the report tables stay parameters.
- `exp` and `sqrt` are parameters with the properties the proofs need, not the real functions.
- Identity of conformer objects is not modelled. Conformers are values, and `list.index` finds the first equal one, so lists that hold the same conformer twice are not distinguished the way Python objects are.
- Statistics.WeightedStdDev: states only non-negativity and the empty case. `WeightedStdDevUnit` ties it to `calc_std_dev` for missing weights. A zero weight sum or a single nonzero weight gives ZeroDivisionError, and a negative variance a math domain error, as in the source, but no lemma states these.
- Ensemble.CheckForFloat: states only that a returned value belongs to a token. That it is the first convertible one, and None exactly when none converts, is stated on `FirstSome`, which it calls.
- WorkingSet.Mkdir: states only that the folder exists afterwards exactly when the call succeeded. That no other folder changes is in its body and used by the lemmas about `new_folders`.
- Backup.MoveKeepsEverything: requires every matched name's suffix to be written as `str(int)` writes it, and no `filename.0`. Without these the rotation loses files, as `LeadingZeroCollision` and `ZeroSuffixCollision` show.
- TextUtil.FRange: requires a positive step, or start equal to end. Otherwise the generator never ends, and a finite model cannot represent it.
- TextUtil.ListRepr: options are quoted with `'` and not escaped. For an option holding a quote, a backslash or a non-printable character, Python's `repr` quotes or escapes it differently, so `format_line` sees a different text and length.
- Coordinates.CoordLine and Coordinates.XyzLine join the fields with single spaces. The source pads them: `f"{x: .14f} {y: .14f}  {z: .14f}  {atom}"` in `x2t` and `"{:3} {: .10f}  {: .10f}  {: .10f}"` in `t2x`. Reading a line back uses `split()`, so the round trips are unaffected, but the files written differ from the source's in their spacing.
- TextUtil.FormatLineOf: a field width of 0 (key exactly `dist_to_options` long) is treated as allowed. Older Python versions reject the resulting format string for some values.
- Report.Printout: requires the header, description and format lists to have the length of `columncall`, and the second descriptions to be empty or of that length. With shorter lists the source raises IndexError. With a longer description list, a surplus description holding '[' raises IndexError when it is stored into the second descriptions (a defaulted list has only `len(columncall)` entries); other surplus entries are ignored. None of these cases is modelled.
- Report.Printout: the rewrite of the caller's `columndescription` and `columndescription2` in place is returned as the new lists in `Printed`; that the caller's own list objects change (and that a defaulted second list is a fresh one) is not modelled as aliasing.
- Boltzmann.BoltzmannWeights: `free_energy` and `gi` are reals, so a conformer whose `free_energy` is None cannot be represented; the TypeError the source raises for it in `item.free_energy - minfree` is not modelled.
- Boltzmann.BoltzmannWeights: a temperature that cannot be converted is `None` and becomes 298.15. A temperature of `None`, which raises TypeError in the source, is not distinguished. Every conformer has a `gi`, so the default of 1.0 for a missing one is not modelled.
- Report.RowsRaise: a cell value is a number or a text, never None; the uncaught TypeError of formatting None with a number format is not modelled, so "exactly when a text value" holds for the values the model can hold.
- Report.RowErrors: as for RowsRaise, a None value's TypeError is not modelled.
- WorkingSet.AllConfs: the optimisation energy is a real, so the TypeError of sorting by a None energy is not modelled.
- Builtins.ParseFloat: reads only an optional sign, decimal digits with at most one point and an optional exponent. Python's `float()` also accepts surrounding whitespace, `_` between digits, non-ASCII digits and `inf`, `nan` and `infinity`. So `check_for_float` of a line with a `nan` token returns a float in the source and None in the model.
- Builtins.ParseInt: reads an optional sign and ASCII digits. Python's `int()` also accepts surrounding whitespace, `_` between digits and non-ASCII digits, so `move_recursively` renames `f.1_0` to `f.11` where the model skips it.
- Builtins.Words: splits on ASCII whitespace only, where `str.split()` also splits on Unicode whitespace.
- Builtins.Lower: case-maps ASCII letters only, as does Builtins.Capitalize; Python maps all Unicode letters.
- The functional table is an excerpt of `functionals` in `censo_qm/cfg.py` (18 entries: every relay target and at least one functional of each type). `infos` returns `list(set(...))`, whose order Python leaves unspecified, so it is modelled as a set.
- The defaults of `NmrRef` (the shielding tables, about 2000 lines of constants) are a parameter `defaults` rather than copied in.
- The rest of `censo_qm/cfg.py` (environment handling, solvent and basis-set data, bibliography) is static configuration with no logic.

## Findings

| source | as written | input that shows it | evidently intended | confidence | as-written member | corrected member |
|---|---|---|---|---|---|---|
| censo_qm/utilities.py:419-429 | `new_folders` pops a failed conformer from the list it is iterating over, so the next conformer is never looked at | two conformers whose folders are missing and cannot be created: the first moves to store_confs, the second stays in the list without a folder | iterate over a copy, so every conformer whose folder cannot be created is moved | not executed | WorkingSet.SkippedAfterFailure | WorkingSet.IntendedSeparates |
| censo_qm/utilities.py:544-550 | `if not any(len(i) == len(columncall) ...)` prints the warning only when none of the three lists has the right length | three columns with two headers and three descriptions and formats: no warning, though the lists differ | `not all(...)`: warn when any list differs | not executed | Report.LengthWarningMissed | Report.LengthWarningGuards |
| censo_qm/cfg.py:719 | `type in ("doublehybrid")` tests for a substring of the string "doublehybrid", not membership in a tuple | an entry of type "hybrid" (or "double", or "") is listed as a double hybrid | `type == "doublehybrid"` (a one-element tuple) | not executed | DfaSettings.DhAsWrittenListsHybrid | DfaSettings.DhExactly |
| censo_qm/utilities.py:268-276 | the assignment loop's handler is `except (ValueError, TypeError) as e`, and Python unbinds `e` when the handler ends; `e` is also the dictionary of energies, so the next conformer's `e[conf.id]` raises NameError, which nothing catches | two conformers (ids 1 and 2, one atom each) whose first energy line has no number and whose second reads -10: conformer 1 gets no energy, then conformer 2 raises NameError and keeps its old energies | give the handler another name, so every conformer gets its energy | not executed | Ensemble.NameErrorExample | Ensemble.GetEnergyFromEnsembleCorrected |
