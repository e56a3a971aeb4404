/** Reading the conformer ensemble file (an xyz trajectory: for conformer i, a
    count line, an energy line and natoms atom lines, blocks of natoms + 2 lines in id
    order): `check_for_float`, `get_energy_from_ensemble` and `ensemble2coord`
    of censo_qm/utilities.py. */
module Ensemble {
  import opened Builtins
  import opened Sorting
  import opened Paths
  import opened Coordinates
  import opened Conformers

  /** Hartree to kcal/mol, `AU2KCAL` of censo_qm/cfg.py. */
  const Au2Kcal: real := 627.50947428

  /** The first value f gives for an element of ws, scanning from the front:
      the loop of `check_for_float`, with f standing for `float()`. */
  function FirstSome<T, U>(ws: seq<T>, f: T -> Option<U>): (r: Option<U>)
    ensures r.None? <==> forall i :: 0 <= i < |ws| ==> f(ws[i]).None?
    ensures r.Some? ==> exists i :: 0 <= i < |ws| && f(ws[i]) == r
                                    && forall j :: 0 <= j < i ==> f(ws[j]).None?
  {
    if |ws| == 0 then None
    else if f(ws[0]).Some? then f(ws[0])
    else
      var r := FirstSome(ws[1..], f);
      assert forall j :: 1 <= j < |ws| ==> ws[j] == ws[1..][j - 1];
      r
  }

  /** `check_for_float(line)`: the first whitespace-separated token of the line
      that is a number, or None. */
  function CheckForFloat(line: string): (r: Option<real>)
    ensures r.Some? ==> exists i :: 0 <= i < |Words(line)| && ParseFloat(Words(line)[i]) == r
  {
    FirstSome(Words(line), ParseFloat)
  }

  /** A line that starts with a number: `check_for_float` returns it. */
  lemma CheckForFloatFirst(w: string, rest: seq<string>, v: real)
    requires |w| > 0 && NoSpace(w) && ParseFloat(w) == Some(v)
    requires forall i :: 0 <= i < |rest| ==> |rest[i]| > 0 && NoSpace(rest[i])
    ensures CheckForFloat(JoinSpace([w] + rest)) == Some(v)
  {
    WordsOfJoin([w] + rest);
  }

  // ---------------------------------------------------------------------------
  // Block arithmetic

  /** k * size, by repeated addition; with a recursive definition the solver
      does not unfold every block offset into nonlinear arithmetic. */
  function Times(k: int, size: nat): (r: int)
  {
    if size == 0 then 0 else Times(k, size - 1) + k
  }

  lemma {:induction false} TimesIsProduct(k: int, size: nat)
    ensures Times(k, size) == k * size
  {
    if size > 0 {
      TimesIsProduct(k, size - 1);
    }
  }

  /** The line holding conformer i's energy: `(i - 1) * (nat + 2) + 1`. */
  function EnergyLine(id: int, natoms: nat): int
  {
    Times(id - 1, natoms + 2) + 1
  }

  /** The first line of conformer i's atom block, `(i - 1) * (nat + 2) + 2`. */
  function BlockStart(id: int, natoms: nat): int
  {
    Times(id - 1, natoms + 2) + 2
  }

  /** One past the last line of conformer i's atom block, `i * (nat + 2)`. */
  function BlockEnd(id: int, natoms: nat): int
  {
    Times(id, natoms + 2)
  }

  /** For a conformer id 1.. whose block lies inside the file, the energy line
      and the natoms atom lines follow its count line, and the blocks of
      consecutive ids tile the file. */
  lemma BlockLayout(id: int, natoms: nat, data: seq<string>)
    requires id >= 1 && BlockEnd(id, natoms) <= |data|
    ensures 0 < EnergyLine(id, natoms) < |data| && PyIndex(data, EnergyLine(id, natoms)) == Some(data[EnergyLine(id, natoms)])
    ensures BlockStart(id, natoms) == EnergyLine(id, natoms) + 1
    ensures |PySlice(data, BlockStart(id, natoms), BlockEnd(id, natoms))| == natoms
    ensures BlockEnd(id, natoms) == BlockStart(id + 1, natoms) - 2
  {
    TimesIsProduct(id - 1, natoms + 2);
    TimesIsProduct(id, natoms + 2);
    TimesIsProduct(id + 1, natoms + 2);
    assert (id - 1) * (natoms + 2) + (natoms + 2) == id * (natoms + 2);
    assert id * (natoms + 2) + (natoms + 2) == (id + 1) * (natoms + 2);
  }

  // ---------------------------------------------------------------------------
  // get_energy_from_ensemble

  /** `conformers.sort(key=lambda x: int(x.id))`. */
  function ById(confs: seq<Conformer>): (r: seq<Conformer>)
    ensures multiset(r) == multiset(confs)
    ensures forall i, j :: 0 <= i < j < |r| ==> r[i].id <= r[j].id
  {
    SortBy(confs, (c: Conformer) => c.id as real)
  }

  /** The energy line of each conformer, in order; IndexError for an energy
      line beyond the file (Python's negative indices count from the end). */
  function EnergyLines(data: seq<string>, natoms: nat, confs: seq<Conformer>): (r: Result<seq<string>>)
    ensures r.Err? ==> r.error == IndexError
    ensures r.Ok? ==> |r.value| == |confs|
  {
    if |confs| == 0 then Ok([])
    else
      match EnergyLines(data, natoms, confs[..|confs| - 1])
      case Err(e) => Err(e)
      case Ok(lines) =>
        match PyIndex(data, EnergyLine(confs[|confs| - 1].id, natoms))
        case None => Err(IndexError)
        case Some(line) => Ok(lines + [line])
  }

  /** The energy `check_for_float` reads for each conformer, in order. */
  function Energies(data: seq<string>, natoms: nat, confs: seq<Conformer>): (r: Result<seq<Option<real>>>)
    ensures r.Err? ==> r.error == IndexError
  {
    match EnergyLines(data, natoms, confs)
    case Err(e) => Err(e)
    case Ok(lines) => Ok(Map(CheckForFloat, lines))
  }

  /** The energy lines are read exactly when every conformer's energy line exists. */
  lemma {:induction false} EnergyLinesRead(data: seq<string>, natoms: nat, confs: seq<Conformer>)
    ensures EnergyLines(data, natoms, confs).Ok?
            <==> forall i :: 0 <= i < |confs| ==> PyIndex(data, EnergyLine(confs[i].id, natoms)).Some?
    decreases |confs|
  {
    if |confs| > 0 {
      var n := |confs| - 1;
      var init := confs[..n];
      EnergyLinesRead(data, natoms, init);
      assert forall i :: 0 <= i < n ==> init[i] == confs[i];
    }
  }

  /** Each line read is its conformer's energy line. */
  lemma {:induction false} EnergyLinesValues(data: seq<string>, natoms: nat, confs: seq<Conformer>)
    requires EnergyLines(data, natoms, confs).Ok?
    ensures forall i :: 0 <= i < |confs| ==>
              PyIndex(data, EnergyLine(confs[i].id, natoms))
              == Some(EnergyLines(data, natoms, confs).value[i])
    decreases |confs|
  {
    if |confs| > 0 {
      var n := |confs| - 1;
      var init := confs[..n];
      var lines := EnergyLines(data, natoms, init).value;
      var last := PyIndex(data, EnergyLine(confs[n].id, natoms));
      assert last.Some?;
      var r := lines + [last.value];
      assert EnergyLines(data, natoms, confs) == Ok(r);
      EnergyLinesValues(data, natoms, init);
      forall i | 0 <= i < |confs|
        ensures PyIndex(data, EnergyLine(confs[i].id, natoms)) == Some(r[i])
      {
        if i < n {
          assert r[i] == lines[i] && init[i] == confs[i];
        }
      }
    }
  }

  /** The energies are read exactly when every conformer's energy line exists,
      and each is the first number on its conformer's energy line. */
  lemma EnergiesRead(data: seq<string>, natoms: nat, confs: seq<Conformer>)
    ensures Energies(data, natoms, confs).Ok?
            <==> forall i :: 0 <= i < |confs| ==> PyIndex(data, EnergyLine(confs[i].id, natoms)).Some?
    ensures Energies(data, natoms, confs).Ok? ==>
              |Energies(data, natoms, confs).value| == |confs|
              && forall i :: 0 <= i < |confs| ==>
                   Energies(data, natoms, confs).value[i]
                   == CheckForFloat(PyIndex(data, EnergyLine(confs[i].id, natoms)).value)
  {
    EnergyLinesRead(data, natoms, confs);
    if EnergyLines(data, natoms, confs).Ok? {
      EnergyLinesValues(data, natoms, confs);
    }
  }

  /** One more conformer read by the loop of `get_energy_from_ensemble`. */
  lemma EnergyLinesStep(data: seq<string>, natoms: nat, confs: seq<Conformer>, i: nat, lines: seq<string>)
    requires i < |confs| && EnergyLines(data, natoms, confs[..i]) == Ok(lines)
    ensures EnergyLines(data, natoms, confs[..i + 1])
            == match PyIndex(data, EnergyLine(confs[i].id, natoms))
               case None => Err(IndexError)
               case Some(line) => Ok(lines + [line])
  {
    assert confs[..i + 1][..i] == confs[..i];
  }

  /** `[i for i in e.values() if i is not None]`. */
  function Valid(es: seq<Option<real>>): (vs: seq<real>)
    ensures forall v :: v in vs <==> Some(v) in es
    ensures |vs| <= |es|
  {
    if |es| == 0 then []
    else
      var init := Valid(es[..|es| - 1]);
      assert es == es[..|es| - 1] + [es[|es| - 1]];
      match es[|es| - 1]
      case None => init
      case Some(v) => init + [v]
  }

  /** `min(vs)`. */
  function MinOf(vs: seq<real>): (m: real)
    requires |vs| > 0
    ensures m in vs && forall i :: 0 <= i < |vs| ==> m <= vs[i]
  {
    if |vs| == 1 then vs[0]
    else
      var m := MinOf(vs[1..]);
      assert forall i :: 1 <= i < |vs| ==> vs[i] == vs[1..][i - 1];
      if vs[0] <= m then vs[0] else m
  }

  /** The update of one conformer: `xtb_energy` is always set; a missing energy
      makes the subtraction raise TypeError, caught, so `rel_xtb_energy` keeps
      its old value. */
  function AssignEnergy(c: Conformer, e: Option<real>, lowest: real): Conformer
  {
    match e
    case None => c.(xtbEnergy := None)
    case Some(v) => c.(xtbEnergy := Some(v), relXtbEnergy := Some((v - lowest) * Au2Kcal))
  }

  /** The position of the first conformer without an energy; |es| if there is none. */
  function FirstNone(es: seq<Option<real>>): (k: nat)
    ensures k <= |es|
    ensures k < |es| ==> es[k].None?
    ensures forall i :: 0 <= i < k ==> es[i].Some?
  {
    if |es| == 0 then 0
    else if es[0].None? then 0
    else
      var k := FirstNone(es[1..]);
      assert forall i :: 1 <= i < |es| ==> es[i] == es[1..][i - 1];
      k + 1
  }

  /** Whether `get_energy_from_ensemble` returned the list or None. */
  datatype EnergyOutcome = ReturnedList | ReturnedNone

  /** `get_energy_from_ensemble(path, config, conformers)` on the lines of the
      ensemble file, as written.  `after` is the caller's list afterwards:
      sorted by id in place first, whatever happens next.  An energy line
      missing raises IndexError; no energy read returns None with nothing
      assigned.  Otherwise the conformers are updated in order up to and
      including the first one without an energy; the handler of its TypeError
      is `except ... as e`, which unbinds the energy dictionary `e`, so a
      conformer after it raises NameError and keeps its old energies. */
  method GetEnergyFromEnsemble(data: seq<string>, natoms: nat, confs: seq<Conformer>)
    returns (after: seq<Conformer>, r: Result<EnergyOutcome>)
    ensures var sorted := ById(confs);
            match Energies(data, natoms, sorted)
            case Err(e) => after == sorted && r == Err(e)
            case Ok(es) =>
              if |Valid(es)| == 0 then after == sorted && r == Ok(ReturnedNone)
              else
                var k := FirstNone(es);
                |after| == |sorted|
                && (forall i :: 0 <= i < |sorted| ==>
                      after[i] == (if i <= k then AssignEnergy(sorted[i], es[i], MinOf(Valid(es))) else sorted[i]))
                && r == (if k + 1 < |es| then Err(NameError) else Ok(ReturnedList))
  {
    var sorted := ById(confs);
    after := sorted;
    var read := ReadEnergies(data, natoms, sorted);
    if read.Err? {
      return sorted, Err(read.error);
    }
    var es := read.value;
    var vs := Valid(es);
    if |vs| == 0 {
      return sorted, Ok(ReturnedNone);
    }
    var raised;
    after, raised := AssignEnergiesAsWritten(sorted, es, MinOf(vs));
    r := if raised.Some? then Err(raised.value) else Ok(ReturnedList);
  }

  /** `get_energy_from_ensemble` with the handler not named `e` (or the
      dictionary renamed): every conformer gets its energy and, where it has
      one, its relative energy. */
  method GetEnergyFromEnsembleCorrected(data: seq<string>, natoms: nat, confs: seq<Conformer>)
    returns (after: seq<Conformer>, r: Result<EnergyOutcome>)
    ensures var sorted := ById(confs);
            match Energies(data, natoms, sorted)
            case Err(e) => after == sorted && r == Err(e)
            case Ok(es) =>
              if |Valid(es)| == 0 then after == sorted && r == Ok(ReturnedNone)
              else r == Ok(ReturnedList) && |after| == |sorted|
                   && forall i :: 0 <= i < |sorted| ==>
                        after[i] == AssignEnergy(sorted[i], es[i], MinOf(Valid(es)))
  {
    var sorted := ById(confs);
    after := sorted;
    var read := ReadEnergies(data, natoms, sorted);
    if read.Err? {
      return sorted, Err(read.error);
    }
    var es := read.value;
    var vs := Valid(es);
    if |vs| == 0 {
      return sorted, Ok(ReturnedNone);
    }
    after := AssignEnergies(sorted, es, MinOf(vs));
    r := Ok(ReturnedList);
  }

  /** The first loop of `get_energy_from_ensemble`: the energy of each conformer,
      read from its comment line; a missing line raises IndexError. */
  method ReadEnergies(data: seq<string>, natoms: nat, sorted: seq<Conformer>)
    returns (r: Result<seq<Option<real>>>)
    ensures r == Energies(data, natoms, sorted)
  {
    var es: seq<Option<real>> := [];
    ghost var lines: seq<string> := [];
    for i := 0 to |sorted|
      invariant EnergyLines(data, natoms, sorted[..i]) == Ok(lines)
      invariant es == Map(CheckForFloat, lines)
    {
      EnergyLinesStep(data, natoms, sorted, i, lines);
      var line := PyIndex(data, EnergyLine(sorted[i].id, natoms));
      if line.None? {
        EnergyLinesFail(data, natoms, sorted, i + 1);
        return Err(IndexError);
      }
      MapConcat(CheckForFloat, lines, [line.value]);
      es := es + [CheckForFloat(line.value)];
      lines := lines + [line.value];
    }
    assert sorted[..|sorted|] == sorted;
    r := Ok(es);
  }

  /** The loop of `get_energy_from_ensemble` that sets the two energies, as
      written: `bound` is whether the name `e` still holds the energies.  The
      conformers up to the first without an energy are updated; one after it
      raises NameError. */
  method AssignEnergiesAsWritten(sorted: seq<Conformer>, es: seq<Option<real>>, lowest: real)
    returns (after: seq<Conformer>, raised: Option<PyError>)
    requires |es| == |sorted|
    ensures |after| == |sorted|
    ensures forall i :: 0 <= i < |sorted| ==>
              after[i] == (if i <= FirstNone(es) then AssignEnergy(sorted[i], es[i], lowest) else sorted[i])
    ensures raised == (if FirstNone(es) + 1 < |es| then Some(NameError) else None)
  {
    after := sorted;
    var bound := true;
    for i := 0 to |sorted|
      invariant |after| == |sorted|
      invariant bound <==> i <= FirstNone(es)
      invariant !bound ==> FirstNone(es) == i - 1
      invariant forall k :: 0 <= k < |sorted| ==>
                  after[k] == (if k < i && k <= FirstNone(es) then AssignEnergy(sorted[k], es[k], lowest) else sorted[k])
    {
      if !bound {
        return after, Some(NameError);
      }
      after := after[i := AssignEnergy(sorted[i], es[i], lowest)];
      if es[i].None? {
        bound := false;
      }
    }
    raised := None;
  }

  /** The loop with the name clash removed: every conformer is updated. */
  method AssignEnergies(sorted: seq<Conformer>, es: seq<Option<real>>, lowest: real)
    returns (after: seq<Conformer>)
    requires |es| == |sorted|
    ensures |after| == |sorted|
    ensures forall i :: 0 <= i < |sorted| ==> after[i] == AssignEnergy(sorted[i], es[i], lowest)
  {
    after := [];
    for i := 0 to |sorted|
      invariant |after| == i
      invariant forall k :: 0 <= k < i ==> after[k] == AssignEnergy(sorted[k], es[k], lowest)
    {
      after := after + [AssignEnergy(sorted[i], es[i], lowest)];
    }
  }

  /** Two conformers in a one-atom ensemble, the first with no number on its
      energy line. */
  const NameErrorData: seq<string> := ["1", "x", "H 0 0 0", "1", "-10", "H 0 0 0"]

  /** On `NameErrorData`, conformers 1 and 2 read the energies None and -10.0;
      the first missing energy is followed by another conformer, so
      `get_energy_from_ensemble` as written raises NameError and leaves
      conformer 2 without its energy, where the corrected loop sets it. */
  lemma NameErrorExample(c1: Conformer, c2: Conformer)
    requires c1.id == 1 && c2.id == 2 && c2.xtbEnergy.None?
    ensures ById([c1, c2]) == [c1, c2]
    ensures Energies(NameErrorData, 1, [c1, c2]) == Ok([None, Some(-10.0)])
    ensures FirstNone([None, Some(-10.0)]) + 1 < 2
    ensures AssignEnergy(c2, Some(-10.0), MinOf(Valid([None, Some(-10.0)]))) != c2
  {
    ByIdInOrder(c1, c2);
    ExampleEnergies(c1, c2);
    assert [None, Some(-10.0)][1..] == [Some(-10.0)];
    assert Valid([None, Some(-10.0)]) == [-10.0] by {
      assert [None, Some(-10.0)][..1] == [None];
      assert [None, Some(-10.0)][..0] == [];
    }
  }

  /** Two conformers already in id order stay in that order. */
  lemma ByIdInOrder(c1: Conformer, c2: Conformer)
    requires c1.id < c2.id
    ensures ById([c1, c2]) == [c1, c2]
  {
    var key := (c: Conformer) => c.id as real;
    assert [c1, c2][..1] == [c1];
    assert SortBy([c1], key) == [c1] by {
      assert [c1][..0] == [];
    }
    assert Insert(c2, [c1], key) == [c1, c2] by {
      assert [c1][1..] == [];
    }
  }

  /** The energy lines of conformers 1 and 2 in `NameErrorData` read None and -10.0. */
  lemma ExampleEnergies(c1: Conformer, c2: Conformer)
    requires c1.id == 1 && c2.id == 2
    ensures Energies(NameErrorData, 1, [c1, c2]) == Ok([None, Some(-10.0)])
  {
    var data := NameErrorData;
    EnergiesOfLines(data, 1, c1, c2);
    assert data[1] == "x" && data[4] == "-10";
    ReadsNothing();
    ReadsMinusTen();
  }

  /** In a one-atom ensemble, conformers 1 and 2 read lines 1 and 4. */
  lemma EnergiesOfLines(data: seq<string>, natoms: nat, c1: Conformer, c2: Conformer)
    requires natoms == 1 && c1.id == 1 && c2.id == 2 && |data| == 6
    ensures Energies(data, natoms, [c1, c2]) == Ok([CheckForFloat(data[1]), CheckForFloat(data[4])])
  {
    var confs := [c1, c2];
    OneAtomLine(c1.id, natoms);
    OneAtomLine(c2.id, natoms);
    EnergiesRead(data, natoms, confs);
    var es := Energies(data, natoms, confs).value;
    assert |es| == 2 && es[0] == CheckForFloat(data[1]) && es[1] == CheckForFloat(data[4]);
    assert es == [CheckForFloat(data[1]), CheckForFloat(data[4])];
  }

  /** In a one-atom ensemble, conformer id's energy is on line 3 * id - 2. */
  lemma OneAtomLine(id: int, natoms: nat)
    requires natoms == 1
    ensures EnergyLine(id, natoms) == 3 * id - 2
  {
    TimesIsProduct(id - 1, natoms + 2);
  }

  lemma ReadsNothing()
    ensures CheckForFloat("x") == None
  {
    OneWord("x");
    assert FindChar("x", '.') == None;
  }

  lemma ReadsMinusTen()
    ensures CheckForFloat("-10") == Some(-10.0)
  {
    OneWord("-10");
    MinusTen();
  }

  lemma MinusTen()
    ensures ParseFloat("-10") == Some(-10.0)
  {
    assert "-10"[1..] == "10";
    assert FindChar("10", 'e') == None && FindChar("10", 'E') == None && FindChar("10", '.') == None;
    assert "10"[..1] == "1";
    assert DigitsValue("10") == 10;
  }

  /** A line of one word splits into that word. */
  lemma OneWord(w: string)
    requires |w| > 0 && NoSpace(w)
    ensures Words(w) == [w]
  {
    WordsOfJoin([w]);
  }

  /** A missing energy line in a prefix is the error of the whole list. */
  lemma {:induction false} EnergyLinesFail(data: seq<string>, natoms: nat, confs: seq<Conformer>, k: nat)
    requires k <= |confs| && EnergyLines(data, natoms, confs[..k]).Err?
    ensures EnergyLines(data, natoms, confs) == EnergyLines(data, natoms, confs[..k])
    decreases |confs| - k
  {
    if k < |confs| {
      assert confs[..k + 1][..k] == confs[..k];
      EnergyLinesFail(data, natoms, confs, k + 1);
    } else {
      assert confs[..k] == confs;
    }
  }

  /** Relative energies are taken against the lowest energy read: every
      conformer with an energy gets a value of at least 0, and the lowest gets
      exactly 0. */
  lemma RelativeEnergies(sorted: seq<Conformer>, es: seq<Option<real>>)
    requires |es| == |sorted| && |Valid(es)| > 0
    ensures var lowest := MinOf(Valid(es));
            forall i :: 0 <= i < |es| && es[i].Some? ==>
              AssignEnergy(sorted[i], es[i], lowest).relXtbEnergy.value >= 0.0
    ensures var lowest := MinOf(Valid(es));
            exists i :: 0 <= i < |es| && es[i].Some?
              && AssignEnergy(sorted[i], es[i], lowest).relXtbEnergy == Some(0.0)
  {
    var vs := Valid(es);
    var lowest := MinOf(vs);
    forall i | 0 <= i < |es| && es[i].Some?
      ensures AssignEnergy(sorted[i], es[i], lowest).relXtbEnergy.value >= 0.0
    {
      assert es[i].value in vs;
      var k :| 0 <= k < |vs| && vs[k] == es[i].value;
      assert es[i].value - lowest >= 0.0;
    }
    assert Some(lowest) in es;
    var i :| 0 <= i < |es| && es[i] == Some(lowest);
    assert AssignEnergy(sorted[i], es[i], lowest).relXtbEnergy == Some(0.0);
  }

  // ---------------------------------------------------------------------------
  // ensemble2coord

  /** `os.path.join(cwd, "CONF" + str(id), foldername, "coord")`. */
  function CoordPath(cwd: string, id: int, foldername: string): string
  {
    Join(ConfFolder(cwd, id, foldername), "coord")
  }

  /** The atoms of a conformer's block, read as `ensemble2coord` reads them: any
      malformed line raises. */
  function BlockAtoms(data: seq<string>, natoms: nat, id: int): Result<seq<Atom>>
  {
    ParseLines(PySlice(data, BlockStart(id, natoms), BlockEnd(id, natoms)), ParseXyzLine)
  }

  /** One conformer of `ensemble2coord`, given what reading its block gave: an
      error raises, otherwise its coord file is written to `path` unless that
      exists already; writing into a folder that does not exist raises
      FileNotFoundError. */
  function WriteCoord(files: map<string, seq<string>>, folders: set<string>, atoms: Result<seq<Atom>>,
                      path: string, folder: string, fmt: real -> string)
    : (r: (map<string, seq<string>>, Option<PyError>))
    ensures forall p :: p in files ==> p in r.0 && r.0[p] == files[p]
    ensures r.0.Keys <= files.Keys + {path}
  {
    match atoms
    case Err(e) => (files, Some(e))
    case Ok(read) =>
      if path in files then (files, None)
      else if folder !in folders then (files, Some(FileNotFoundError))
      else (files[path := CoordFile(Map(ToBohr, read), fmt)], None)
  }

  /** The files after `ensemble2coord` has worked through confs, and the error
      that stopped it, if any. */
  function CoordsWritten(files: map<string, seq<string>>, folders: set<string>, data: seq<string>,
                         natoms: nat, cwd: string, foldername: string, confs: seq<Conformer>,
                         fmt: real -> string)
    : (r: (map<string, seq<string>>, Option<PyError>))
  {
    if |confs| == 0 then (files, None)
    else
      var prev := CoordsWritten(files, folders, data, natoms, cwd, foldername, confs[..|confs| - 1], fmt);
      if prev.1.Some? then prev
      else
        var c := confs[|confs| - 1];
        WriteCoord(prev.0, folders, BlockAtoms(data, natoms, c.id), CoordPath(cwd, c.id, foldername),
                   ConfFolder(cwd, c.id, foldername), fmt)
  }

  /** `ensemble2coord(config, foldername, conflist, ...)`: writes the coord files;
      the three lists it returns are the ones it was given, unchanged. */
  method Ensemble2Coord(disk: Disk, data: seq<string>, natoms: nat, cwd: string, foldername: string,
                        conflist: seq<Conformer>, fmt: real -> string)
    returns (err: Option<PyError>)
    modifies disk
    ensures disk.folders == old(disk.folders)
    ensures (disk.files, err)
            == CoordsWritten(old(disk.files), disk.folders, data, natoms, cwd, foldername, conflist, fmt)
  {
    for i := 0 to |conflist|
      invariant disk.folders == old(disk.folders)
      invariant (disk.files, None)
                == CoordsWritten(old(disk.files), disk.folders, data, natoms, cwd, foldername, conflist[..i], fmt)
    {
      assert conflist[..i + 1][..i] == conflist[..i];
      var c := conflist[i];
      var block := PySlice(data, BlockStart(c.id, natoms), BlockEnd(c.id, natoms));
      var atoms := ParseLines(block, ParseXyzLine);
      assert atoms == BlockAtoms(data, natoms, c.id);
      if atoms.Err? {
        CoordsWrittenStops(old(disk.files), disk.folders, data, natoms, cwd, foldername, conflist, fmt, i + 1);
        return Some(atoms.error);
      }
      var path := CoordPath(cwd, c.id, foldername);
      if path !in disk.files {
        if ConfFolder(cwd, c.id, foldername) !in disk.folders {
          CoordsWrittenStops(old(disk.files), disk.folders, data, natoms, cwd, foldername, conflist, fmt, i + 1);
          return Some(FileNotFoundError);
        }
        disk.files := disk.files[path := CoordFile(Map(ToBohr, atoms.value), fmt)];
      }
    }
    assert conflist[..|conflist|] == conflist;
    err := None;
  }

  /** After an error, no further conformer is processed. */
  lemma {:induction false} CoordsWrittenStops(files: map<string, seq<string>>, folders: set<string>,
                                              data: seq<string>, natoms: nat, cwd: string, foldername: string,
                                              confs: seq<Conformer>, fmt: real -> string, k: nat)
    requires k <= |confs|
    requires CoordsWritten(files, folders, data, natoms, cwd, foldername, confs[..k], fmt).1.Some?
    ensures CoordsWritten(files, folders, data, natoms, cwd, foldername, confs, fmt)
            == CoordsWritten(files, folders, data, natoms, cwd, foldername, confs[..k], fmt)
    decreases |confs| - k
  {
    if k < |confs| {
      assert confs[..k + 1][..k] == confs[..k];
      CoordsWrittenStops(files, folders, data, natoms, cwd, foldername, confs, fmt, k + 1);
    } else {
      assert confs[..k] == confs;
    }
  }

  /** `ensemble2coord` never overwrites a file, and the only files it adds are
      the coord files of the conformers it was given. */
  lemma {:induction false} NeverOverwrites(files: map<string, seq<string>>, folders: set<string>,
                                           data: seq<string>, natoms: nat, cwd: string, foldername: string,
                                           confs: seq<Conformer>, fmt: real -> string)
    ensures var r := CoordsWritten(files, folders, data, natoms, cwd, foldername, confs, fmt);
            (forall p :: p in files ==> p in r.0 && r.0[p] == files[p])
            && forall p :: p in r.0 && p !in files ==>
                 exists i :: 0 <= i < |confs| && p == CoordPath(cwd, confs[i].id, foldername)
  {
    if |confs| > 0 {
      var init := confs[..|confs| - 1];
      NeverOverwrites(files, folders, data, natoms, cwd, foldername, init, fmt);
      var prev := CoordsWritten(files, folders, data, natoms, cwd, foldername, init, fmt);
      var r := CoordsWritten(files, folders, data, natoms, cwd, foldername, confs, fmt);
      CoordsStep(files, prev.0, r.0, cwd, foldername, confs);
    }
  }

  /** One more conformer keeps the files there were and adds at most its own
      coord file. */
  lemma CoordsStep(files: map<string, seq<string>>, prev: map<string, seq<string>>,
                   next: map<string, seq<string>>, cwd: string, foldername: string, confs: seq<Conformer>)
    requires |confs| > 0
    requires forall p :: p in files ==> p in prev && prev[p] == files[p]
    requires forall p :: p in prev && p !in files ==>
               exists i :: 0 <= i < |confs| - 1 && p == CoordPath(cwd, confs[i].id, foldername)
    requires forall p :: p in prev ==> p in next && next[p] == prev[p]
    requires next.Keys <= prev.Keys + {CoordPath(cwd, confs[|confs| - 1].id, foldername)}
    ensures forall p :: p in files ==> p in next && next[p] == files[p]
    ensures forall p :: p in next && p !in files ==>
              exists i :: 0 <= i < |confs| && p == CoordPath(cwd, confs[i].id, foldername)
  {
    forall p | p in next && p !in files
      ensures exists i :: 0 <= i < |confs| && p == CoordPath(cwd, confs[i].id, foldername)
    {
      if p in prev {
        var i :| 0 <= i < |confs| - 1 && p == CoordPath(cwd, confs[i].id, foldername);
      } else {
        assert p == CoordPath(cwd, confs[|confs| - 1].id, foldername);
      }
    }
  }
}
