/** `printout` of censo_qm/utilities.py: the table of conformers that every
    part of CENSO writes to its output file. Each column is a function of the
    conformer (`columncall`), a header, a description, an optional second
    description and an optional fixed-point format; the conformer with the
    lowest free energy is marked with an arrow. */
module Report {
  import opened Builtins
  import opened Sorting
  import opened Conformers
  import opened TextUtil

  /** A value a column function returns: a number or a text. */
  datatype Cell = Num(x: real) | Text(s: string)

  /** `columnformat[j]`: empty, or `[width, precision]` for `f"{v:{w}.{p}f}"`. */
  datatype Format = NoFormat | Fixed(width: nat, precision: nat)

  /** What `printout` leaves behind: the conformer list, sorted in place by id;
      the caller's two description lists, which the split loop rewrites in
      place (a defaulted `columndescription2` is a new list, so the caller's
      empty one stays empty); the lines written to the output file; and the
      exception that ended the row loop, if one did. */
  datatype Printed = Printed(sorted: seq<Conformer>, descs: seq<string>, descs2: seq<string>,
                             lines: seq<string>, error: Option<PyError>)

  /** The arrow appended to the row of the conformer with the lowest free energy. */
  const Marker: string := "    <------"

  /** Descriptions that are units and are never split at '['. */
  const Units: set<string> := {"[Eh]", "[kcal/mol]", "[a.u.]"}

  function MaxNat(a: nat, b: nat): nat
  {
    if a >= b then a else b
  }

  // ---------------------------------------------------------------------------
  // The length check
  // ---------------------------------------------------------------------------

  /** The column lists agree with `columncall` in length, and the second
      descriptions are either not given or one per column. */
  predicate Matching(n: nat, headers: seq<string>, descs: seq<string>, formats: seq<Format>,
                     descs2: seq<string>)
  {
    |headers| == n && |descs| == n && |formats| == n && (|descs2| == 0 || |descs2| == n)
  }

  /** "Lists of uneqal length!" as written: `not any(...)` prints it only when
      none of the three lists has the length of `columncall`. */
  predicate LengthWarningAsWritten(n: nat, headers: nat, descs: nat, formats: nat)
  {
    !(headers == n || descs == n || formats == n)
  }

  /** The warning as meant: printed when any of the three lists differs in length. */
  predicate LengthWarning(n: nat, headers: nat, descs: nat, formats: nat)
  {
    headers != n || descs != n || formats != n
  }

  /** The corrected warning is silent exactly when the lists match. */
  lemma LengthWarningGuards(n: nat, headers: seq<string>, descs: seq<string>, formats: seq<Format>)
    ensures !LengthWarning(n, |headers|, |descs|, |formats|) <==> Matching(n, headers, descs, formats, [])
  {
  }

  /** Three columns with only two headers: the written check stays silent
      although `printout` cannot be given these lists. */
  lemma LengthWarningMissed(headers: seq<string>, descs: seq<string>, formats: seq<Format>)
    requires |headers| == 2 && |descs| == 3 && |formats| == 3
    ensures !LengthWarningAsWritten(3, |headers|, |descs|, |formats|)
    ensures !Matching(3, headers, descs, formats, [])
    ensures LengthWarning(3, |headers|, |descs|, |formats|)
  {
  }

  // ---------------------------------------------------------------------------
  // Splitting descriptions at '['
  // ---------------------------------------------------------------------------

  /** The first and the second description of a column: a description holding a
      '[' that is not one of the units is cut there, the part before the first
      '[' stays and "[" + the part up to the next '[' becomes the second
      description. */
  function SplitDescription(d: string, d2: string): (r: (string, string))
    ensures FindChar(d, '[').None? || d in Units ==> r == (d, d2)
    ensures FindChar(d, '[').Some? && d !in Units
            ==> r.0 + r.1 <= d && |r.1| > 0 && r.1[0] == '['
                && (forall k :: 0 <= k < |r.0| ==> r.0[k] != '[')
                && (forall k :: 0 < k < |r.1| ==> r.1[k] != '[')
  {
    match FindChar(d, '[')
    case None => (d, d2)
    case Some(i) =>
      if d in Units then (d, d2)
      else
        var rest := d[i + 1..];
        var second := match FindChar(rest, '[') case None => rest case Some(j) => rest[..j];
        assert d[..i] + "[" + rest == d;
        (d[..i], "[" + second)
  }

  /** A description with a single '[', such as "COSMORS[B97-3c/def2-TZVP]", is cut
      into the text before the bracket and the bracketed rest, which put
      together give the description back. */
  lemma SplitRejoins(d: string, d2: string, i: nat)
    requires d !in Units && i < |d| && d[i] == '['
    requires forall k :: 0 <= k < |d| && k != i ==> d[k] != '['
    ensures SplitDescription(d, d2) == (d[..i], d[i..])
    ensures SplitDescription(d, d2).0 + SplitDescription(d, d2).1 == d
  {
    assert FindChar(d, '[') == Some(i);
    var rest := d[i + 1..];
    assert forall k :: 0 <= k < |rest| ==> rest[k] == d[i + 1 + k];
    assert FindChar(rest, '[') == None;
    assert "[" + rest == d[i..];
  }

  /** The second descriptions the table uses: the given ones, or empty strings. */
  function Descriptions2(descs2: seq<string>, n: nat): (r: seq<string>)
    requires |descs2| == 0 || |descs2| == n
    ensures |r| == n
  {
    if |descs2| == 0 then seq(n, _ => "") else descs2
  }

  /** Both description lists after the split loop. */
  function SplitAll(descs: seq<string>, descs2: seq<string>): (r: (seq<string>, seq<string>))
    requires |descs2| == |descs|
    ensures |r.0| == |descs| && |r.1| == |descs|
    ensures forall i :: 0 <= i < |descs| ==> (r.0[i], r.1[i]) == SplitDescription(descs[i], descs2[i])
  {
    (seq(|descs|, i requires 0 <= i < |descs| => SplitDescription(descs[i], descs2[i]).0),
     seq(|descs|, i requires 0 <= i < |descs| => SplitDescription(descs[i], descs2[i]).1))
  }

  /** The split loop of `printout`, which rewrites both lists in place. */
  method SplitDescriptions(descs: seq<string>, descs2: seq<string>) returns (ds: seq<string>, ds2: seq<string>)
    requires |descs2| == |descs|
    ensures (ds, ds2) == SplitAll(descs, descs2)
  {
    ds, ds2 := descs, descs2;
    for i := 0 to |descs|
      invariant |ds| == |descs| && |ds2| == |descs|
      invariant forall k :: 0 <= k < i ==> (ds[k], ds2[k]) == SplitDescription(descs[k], descs2[k])
      invariant ds[i..] == descs[i..] && ds2[i..] == descs2[i..]
    {
      var split := SplitDescription(ds[i], ds2[i]);
      assert ds[i] == ds[i..][0] && ds2[i] == ds2[i..][0];
      ds := ds[i := split.0];
      ds2 := ds2[i := split.1];
      assert ds[i + 1..] == ds[i..][1..];
    }
    assert ds == SplitAll(descs, descs2).0;
    assert ds2 == SplitAll(descs, descs2).1;
  }

  // ---------------------------------------------------------------------------
  // Column widths
  // ---------------------------------------------------------------------------

  /** The width a value needs in its column, or None when formatting it raises:
      a fixed-point format of a text raises ValueError and `len` of a number
      raises TypeError. `fixed(x, p)` is `f"{x:.{p}f}"`. */
  function CellWidth(c: Cell, f: Format, fixed: (real, nat) -> string): Option<nat>
  {
    match f
    case Fixed(w, p) => (match c case Num(x) => Some(MaxNat(|fixed(x, p)|, w)) case Text(_) => None)
    case NoFormat => (match c case Text(s) => Some(|s|) case Num(_) => None)
  }

  /** `max(...)` over a column's values; None when a value raises or the column
      is empty (`max` of an empty list raises ValueError). */
  function ColumnWidth(cells: seq<Cell>, f: Format, fixed: (real, nat) -> string): (r: Option<nat>)
    ensures r.None? <==> |cells| == 0 || exists i :: 0 <= i < |cells| && CellWidth(cells[i], f, fixed).None?
    ensures r.Some? ==> forall i :: 0 <= i < |cells| ==> (CellWidth(cells[i], f, fixed).Some?
                                                        && CellWidth(cells[i], f, fixed).value <= r.value)
    ensures r.Some? ==> exists i :: 0 <= i < |cells| && CellWidth(cells[i], f, fixed) == r
  {
    if |cells| == 0 then None
    else
      var first := CellWidth(cells[0], f, fixed);
      if first.None? then None
      else if |cells| == 1 then first
      else
        var rest := ColumnWidth(cells[1..], f, fixed);
        assert forall i :: 0 < i < |cells| ==> cells[i] == cells[1..][i - 1];
        if rest.None? then None
        else
          assert exists i :: 0 < i < |cells| && CellWidth(cells[i], f, fixed) == rest;
          Some(MaxNat(first.value, rest.value))
  }

  /** The longest of a column's description, header and second description. */
  function LabelWidth(desc: string, header: string, desc2: string): nat
  {
    MaxNat(MaxNat(|desc|, |header|), |desc2|)
  }

  /** The width of every column of the first `j + 1` could be computed. */
  predicate FoundThrough(cols: seq<seq<Cell>>, formats: seq<Format>, fixed: (real, nat) -> string, j: nat)
    requires |formats| == |cols| && j < |cols|
  {
    forall i :: 0 <= i <= j ==> ColumnWidth(cols[i], formats[i], fixed).Some?
  }

  /** `collength`: each column is as wide as its widest value and its labels;
      from the first column whose width raises on, every column is 12 wide. */
  function ColumnLengthsOf(cols: seq<seq<Cell>>, formats: seq<Format>, labels: seq<nat>,
                           fixed: (real, nat) -> string): (r: seq<nat>)
    requires |formats| == |cols| && |labels| == |cols|
    ensures |r| == |cols|
    ensures forall j :: 0 <= j < |cols| && FoundThrough(cols, formats, fixed, j)
                        ==> r[j] >= labels[j] && r[j] >= ColumnWidth(cols[j], formats[j], fixed).value
  {
    seq(|cols|, j requires 0 <= j < |cols| =>
      if FoundThrough(cols, formats, fixed, j) then MaxNat(ColumnWidth(cols[j], formats[j], fixed).value, labels[j])
      else 12)
  }

  /** The width loop of `printout` with its `try`: the first column that raises
      ends the loop, and the handler appends 12 once per column. */
  method ColumnLengths(cols: seq<seq<Cell>>, formats: seq<Format>, labels: seq<nat>,
                       fixed: (real, nat) -> string) returns (collength: seq<nat>)
    requires |formats| == |cols| && |labels| == |cols|
    ensures |collength| >= |cols|
    ensures collength[..|cols|] == ColumnLengthsOf(cols, formats, labels, fixed)
  {
    var computed := MeasureColumns(cols, formats, labels, fixed);
    collength := computed;
    for k := 0 to |cols|
      invariant collength == computed + seq(k, _ => 12)
    {
      collength := collength + [12];
    }
    if |computed| < |cols| {
      NotFoundFrom(cols, formats, fixed, |computed|);
    }
  }

  /** The `try` part of the width loop: the widths of the columns before the
      first one that raises. */
  method MeasureColumns(cols: seq<seq<Cell>>, formats: seq<Format>, labels: seq<nat>,
                        fixed: (real, nat) -> string) returns (computed: seq<nat>)
    requires |formats| == |cols| && |labels| == |cols|
    ensures |computed| <= |cols|
    ensures computed == ColumnLengthsOf(cols, formats, labels, fixed)[..|computed|]
    ensures |computed| < |cols| ==> ColumnWidth(cols[|computed|], formats[|computed|], fixed).None?
  {
    ghost var spec := ColumnLengthsOf(cols, formats, labels, fixed);
    computed := [];
    var j := 0;
    while j < |cols|
      invariant j <= |cols| && computed == spec[..j]
      invariant j > 0 ==> FoundThrough(cols, formats, fixed, j - 1)
    {
      var width := ColumnWidth(cols[j], formats[j], fixed);
      if width.None? {
        break;
      }
      FoundStep(cols, formats, fixed, j);
      computed := computed + [MaxNat(width.value, labels[j])];
      j := j + 1;
    }
  }

  lemma FoundStep(cols: seq<seq<Cell>>, formats: seq<Format>, fixed: (real, nat) -> string, j: nat)
    requires |formats| == |cols| && j < |cols|
    requires j > 0 ==> FoundThrough(cols, formats, fixed, j - 1)
    requires ColumnWidth(cols[j], formats[j], fixed).Some?
    ensures FoundThrough(cols, formats, fixed, j)
  {
  }

  /** A column whose width raises takes every later column down with it. */
  lemma NotFoundFrom(cols: seq<seq<Cell>>, formats: seq<Format>, fixed: (real, nat) -> string, j: nat)
    requires |formats| == |cols| && j < |cols|
    requires ColumnWidth(cols[j], formats[j], fixed).None?
    ensures forall i :: j <= i < |cols| ==> !FoundThrough(cols, formats, fixed, i)
  {
  }

  // ---------------------------------------------------------------------------
  // Lines
  // ---------------------------------------------------------------------------

  /** The length of `" ".join` of texts with the given lengths. */
  function LineWidth(widths: seq<nat>): nat
  {
    if |widths| == 0 then 0
    else if |widths| == 1 then widths[0]
    else widths[0] + 1 + LineWidth(widths[1..])
  }

  lemma {:induction false} JoinedLength(texts: seq<string>, widths: seq<nat>)
    requires |texts| == |widths|
    requires forall i :: 0 <= i < |texts| ==> |texts[i]| == widths[i]
    ensures |JoinSpace(texts)| == LineWidth(widths)
  {
    if |texts| > 1 {
      JoinedLength(texts[1..], widths[1..]);
    }
  }

  lemma {:induction false} JoinAppend(texts: seq<string>, t: string)
    requires |texts| > 0
    ensures JoinSpace(texts + [t]) == JoinSpace(texts) + " " + t
  {
    var all := texts + [t];
    if |texts| == 1 {
      assert all[1..] == [t];
    } else {
      assert all[1..] == texts[1..] + [t];
      JoinAppend(texts[1..], t);
    }
  }

  /** The labels right-aligned in their columns. */
  function Aligned(labels: seq<string>, widths: seq<nat>): (r: seq<string>)
    requires |labels| == |widths|
    ensures |r| == |labels|
    ensures forall i :: 0 <= i < |labels| ==> r[i] == PadLeft(labels[i], widths[i])
  {
    seq(|labels|, i requires 0 <= i < |labels| => PadLeft(labels[i], widths[i]))
  }

  lemma AlignedStep(labels: seq<string>, widths: seq<nat>, i: nat)
    requires |labels| == |widths| && i < |labels|
    ensures Aligned(labels[..i + 1], widths[..i + 1]) == Aligned(labels[..i], widths[..i]) + [PadLeft(labels[i], widths[i])]
  {
  }

  /** The header lines: headers, descriptions, and the second descriptions when
      there is at least one column. */
  function HeaderLinesOf(headers: seq<string>, ds: seq<string>, ds2: seq<string>, widths: seq<nat>)
    : (r: seq<string>)
    requires |headers| == |widths| && |ds| == |widths| && |ds2| == |widths|
    ensures |r| == if |widths| > 0 then 3 else 2
  {
    if |widths| > 0 then [JoinSpace(Aligned(headers, widths)), JoinSpace(Aligned(ds, widths)), JoinSpace(Aligned(ds2, widths))]
    else [JoinSpace(Aligned(headers, widths)), JoinSpace(Aligned(ds, widths))]
  }

  /** The header loop of `printout` and the lines it writes. */
  method HeaderLines(headers: seq<string>, ds: seq<string>, ds2: seq<string>, widths: seq<nat>)
    returns (lines: seq<string>)
    requires |headers| == |widths| && |ds| == |widths| && |ds2| == |widths|
    ensures lines == HeaderLinesOf(headers, ds, ds2, widths)
  {
    var hs, dp, dp2 := [], [], [];
    for i := 0 to |widths|
      invariant hs == Aligned(headers[..i], widths[..i])
      invariant dp == Aligned(ds[..i], widths[..i])
      invariant dp2 == Aligned(ds2[..i], widths[..i])
    {
      AlignedStep(headers, widths, i);
      AlignedStep(ds, widths, i);
      AlignedStep(ds2, widths, i);
      hs := hs + [PadLeft(headers[i], widths[i])];
      dp := dp + [PadLeft(ds[i], widths[i])];
      dp2 := dp2 + [PadLeft(ds2[i], widths[i])];
    }
    assert headers[..|widths|] == headers && ds[..|widths|] == ds && ds2[..|widths|] == ds2;
    assert widths[..|widths|] == widths;
    lines := [JoinSpace(hs), JoinSpace(dp)];
    if |ds2| > 0 {
      lines := lines + [JoinSpace(dp2)];
    }
    assert |ds2| == |widths|;
  }

  /** One value in its column: `f"{v:{w}.{p}f}"` right-aligns a number; without a
      format a text is left-aligned and a number (`show(x)` is `str(x)`)
      right-aligned; a fixed-point format of a text raises ValueError. */
  function CellText(c: Cell, f: Format, w: nat, fixed: (real, nat) -> string, show: real -> string)
    : Result<string>
  {
    match f
    case Fixed(_, p) => (match c case Num(x) => Ok(PadLeft(fixed(x, p), w)) case Text(_) => Err(ValueError))
    case NoFormat => (match c case Text(s) => Ok(PadRight(s, w)) case Num(x) => Ok(PadLeft(show(x), w)))
  }

  /** The values of one conformer, one per column. */
  function Cells(conf: Conformer, calls: seq<Conformer -> Cell>): (r: seq<Cell>)
    ensures |r| == |calls|
    ensures forall j :: 0 <= j < |calls| ==> r[j] == calls[j](conf)
  {
    seq(|calls|, j requires 0 <= j < |calls| => calls[j](conf))
  }

  /** The texts of one row, or the first exception. */
  function CellsOf(cells: seq<Cell>, formats: seq<Format>, widths: seq<nat>,
                   fixed: (real, nat) -> string, show: real -> string): (r: Result<seq<string>>)
    requires |formats| == |cells| && |widths| == |cells|
    ensures r.Ok? ==> |r.value| == |cells|
                      && forall i :: 0 <= i < |cells| ==> CellText(cells[i], formats[i], widths[i], fixed, show) == Ok(r.value[i])
    ensures r.Err? ==> r.error == ValueError
  {
    if |cells| == 0 then Ok([])
    else
      var n := |cells| - 1;
      var init := CellsOf(cells[..n], formats[..n], widths[..n], fixed, show);
      assert forall i :: 0 <= i < n ==> cells[..n][i] == cells[i] && formats[..n][i] == formats[i]
                                        && widths[..n][i] == widths[i];
      if init.Err? then init
      else match CellText(cells[n], formats[n], widths[n], fixed, show)
        case Err(e) => Err(e)
        case Ok(t) => Ok(init.value + [t])
  }

  /** A row raises exactly when one of its values does. */
  lemma {:induction false} CellsOfErrs(cells: seq<Cell>, formats: seq<Format>, widths: seq<nat>,
                                        fixed: (real, nat) -> string, show: real -> string)
    requires |formats| == |cells| && |widths| == |cells|
    ensures CellsOf(cells, formats, widths, fixed, show).Err?
            <==> exists i :: 0 <= i < |cells| && CellText(cells[i], formats[i], widths[i], fixed, show).Err?
  {
    if |cells| > 0 {
      var n := |cells| - 1;
      CellsOfErrs(cells[..n], formats[..n], widths[..n], fixed, show);
      assert forall i :: 0 <= i < n ==> cells[..n][i] == cells[i] && formats[..n][i] == formats[i]
                                        && widths[..n][i] == widths[i];
    }
  }

  /** The line of one conformer: its texts joined by spaces, with the arrow when
      its free energy is the lowest. */
  function RowOf(conf: Conformer, calls: seq<Conformer -> Cell>, formats: seq<Format>, widths: seq<nat>,
                 minfree: real, fixed: (real, nat) -> string, show: real -> string): (r: Result<string>)
    requires |formats| == |calls| && |widths| == |calls|
    ensures r.Err? ==> r.error == ValueError
  {
    match CellsOf(Cells(conf, calls), formats, widths, fixed, show)
    case Err(e) => Err(e)
    case Ok(texts) =>
      Ok(JoinSpace(if conf.freeEnergy != minfree then texts else texts + [Marker]))
  }

  /** The outcome of every conformer's row, in order. */
  function RowResults(rows: seq<Conformer>, calls: seq<Conformer -> Cell>, formats: seq<Format>, widths: seq<nat>,
                      minfree: real, fixed: (real, nat) -> string, show: real -> string): (r: seq<Result<string>>)
    requires |formats| == |calls| && |widths| == |calls|
    ensures |r| == |rows|
    ensures forall k :: 0 <= k < |rows| ==> r[k] == RowOf(rows[k], calls, formats, widths, minfree, fixed, show)
  {
    seq(|rows|, k requires 0 <= k < |rows| => RowOf(rows[k], calls, formats, widths, minfree, fixed, show))
  }

  /** What a loop that writes one line per row leaves behind when the first row
      that raises ends it: the lines of the rows before it, and the exception. */
  function Written(results: seq<Result<string>>): (r: (seq<string>, Option<PyError>))
    ensures |r.0| <= |results|
    ensures forall k :: 0 <= k < |r.0| ==> results[k] == Ok(r.0[k])
    ensures r.1.None? ==> |r.0| == |results|
    ensures r.1.Some? ==> |r.0| < |results| && results[|r.0|] == Err(r.1.value)
  {
    if |results| == 0 then ([], None)
    else
      var n := |results| - 1;
      var init := Written(results[..n]);
      assert forall k :: 0 <= k < n ==> results[..n][k] == results[k];
      if init.1.Some? then init
      else match results[n]
        case Err(e) => (init.0, Some(e))
        case Ok(line) => (init.0 + [line], None)
  }

  /** The cell loop for one conformer. */
  method FormatRow(conf: Conformer, calls: seq<Conformer -> Cell>, formats: seq<Format>, widths: seq<nat>,
                   fixed: (real, nat) -> string, show: real -> string) returns (r: Result<seq<string>>)
    requires |formats| == |calls| && |widths| == |calls|
    ensures r == CellsOf(Cells(conf, calls), formats, widths, fixed, show)
  {
    var cells := Cells(conf, calls);
    var texts := [];
    for i := 0 to |calls|
      invariant CellsOf(cells[..i], formats[..i], widths[..i], fixed, show) == Ok(texts)
    {
      assert cells[..i + 1][..i] == cells[..i] && formats[..i + 1][..i] == formats[..i];
      assert widths[..i + 1][..i] == widths[..i];
      var t := CellText(cells[i], formats[i], widths[i], fixed, show);
      if t.Err? {
        CellsOfStops(cells, formats, widths, fixed, show, i);
        return Err(t.error);
      }
      texts := texts + [t.value];
    }
    assert cells[..|calls|] == cells && formats[..|calls|] == formats && widths[..|calls|] == widths;
    r := Ok(texts);
  }

  /** An exception in column i ends the row whatever follows. */
  lemma CellsOfStops(cells: seq<Cell>, formats: seq<Format>, widths: seq<nat>,
                     fixed: (real, nat) -> string, show: real -> string, i: nat)
    requires |formats| == |cells| && |widths| == |cells| && i < |cells|
    requires CellText(cells[i], formats[i], widths[i], fixed, show).Err?
    ensures CellsOf(cells, formats, widths, fixed, show) == Err(CellText(cells[i], formats[i], widths[i], fixed, show).error)
  {
    CellsOfErrs(cells, formats, widths, fixed, show);
  }

  /** The row loop of `printout`; an exception leaves it, and `printout`, with
      the lines written so far. */
  method WriteRows(rows: seq<Conformer>, calls: seq<Conformer -> Cell>, formats: seq<Format>, widths: seq<nat>,
                   minfree: real, fixed: (real, nat) -> string, show: real -> string)
    returns (lines: seq<string>, error: Option<PyError>)
    requires |formats| == |calls| && |widths| == |calls|
    ensures (lines, error) == Written(RowResults(rows, calls, formats, widths, minfree, fixed, show))
  {
    ghost var results := RowResults(rows, calls, formats, widths, minfree, fixed, show);
    lines, error := [], None;
    for k := 0 to |rows|
      invariant Written(results[..k]) == (lines, None)
    {
      var texts := FormatRow(rows[k], calls, formats, widths, fixed, show);
      assert results[k] == RowOf(rows[k], calls, formats, widths, minfree, fixed, show);
      if texts.Err? {
        WrittenStops(results, k, lines);
        return lines, Some(texts.error);
      }
      var conf := rows[k];
      var line;
      if conf.freeEnergy != minfree {
        line := JoinSpace(texts.value);
      } else {
        line := JoinSpace(texts.value + [Marker]);
      }
      WrittenStep(results, k, lines, line);
      lines := lines + [line];
    }
    assert results[..|rows|] == results;
  }

  /** A row that does not raise adds its line. */
  lemma WrittenStep(results: seq<Result<string>>, k: nat, lines: seq<string>, line: string)
    requires k < |results| && Written(results[..k]) == (lines, None) && results[k] == Ok(line)
    ensures Written(results[..k + 1]) == (lines + [line], None)
  {
    assert results[..k + 1][..k] == results[..k];
  }

  /** A row that raises ends the loop: nothing after it is written. */
  lemma {:induction false} WrittenStops(results: seq<Result<string>>, k: nat, lines: seq<string>)
    requires k < |results| && Written(results[..k]) == (lines, None) && results[k].Err?
    ensures Written(results) == (lines, Some(results[k].error))
    decreases |results| - k
  {
    var m := |results| - 1;
    assert results[..m][..k] == results[..k];
    if k < m {
      assert results[..m][k] == results[k];
      WrittenStops(results[..m], k, lines);
    } else {
      assert results[..k] == results[..m];
    }
  }

  // ---------------------------------------------------------------------------
  // printout
  // ---------------------------------------------------------------------------

  /** `int(x.id)`, the key `printout` sorts by. */
  function IdKey(c: Conformer): real
  {
    c.id as real
  }

  /** The values of every column, conformer by conformer. */
  function Columns(calls: seq<Conformer -> Cell>, rows: seq<Conformer>): (r: seq<seq<Cell>>)
    ensures |r| == |calls|
    ensures forall j :: 0 <= j < |calls| ==> r[j] == Map(calls[j], rows)
  {
    seq(|calls|, j requires 0 <= j < |calls| => Map(calls[j], rows))
  }

  function Labels(headers: seq<string>, ds: seq<string>, ds2: seq<string>): (r: seq<nat>)
    requires |ds| == |headers| && |ds2| == |headers|
    ensures |r| == |headers|
    ensures forall j :: 0 <= j < |headers| ==> r[j] == LabelWidth(ds[j], headers[j], ds2[j])
  {
    seq(|headers|, j requires 0 <= j < |headers| => LabelWidth(ds[j], headers[j], ds2[j]))
  }

  /** The column widths of the table. */
  function TableWidths(calls: seq<Conformer -> Cell>, headers: seq<string>, descs: seq<string>,
                       formats: seq<Format>, calculate: seq<Conformer>, descs2: seq<string>,
                       fixed: (real, nat) -> string): (r: seq<nat>)
    requires Matching(|calls|, headers, descs, formats, descs2)
    ensures |r| == |calls|
  {
    var split := SplitAll(descs, Descriptions2(descs2, |calls|));
    ColumnLengthsOf(Columns(calls, SortBy(calculate, IdKey)), formats, Labels(headers, split.0, split.1), fixed)
  }

  /** The header lines of the table, after the split of the descriptions. */
  function TableHeader(headers: seq<string>, descs: seq<string>, descs2: seq<string>, widths: seq<nat>)
    : (r: seq<string>)
    requires |headers| == |widths| && |descs| == |widths| && (|descs2| == 0 || |descs2| == |widths|)
    ensures |r| == if |widths| > 0 then 3 else 2
  {
    var split := SplitAll(descs, Descriptions2(descs2, |widths|));
    HeaderLinesOf(headers, split.0, split.1, widths)
  }

  /** The row lines of the table and the exception that ended them, if any. */
  function TableRows(calls: seq<Conformer -> Cell>, headers: seq<string>, descs: seq<string>,
                     formats: seq<Format>, calculate: seq<Conformer>, minfree: real, descs2: seq<string>,
                     fixed: (real, nat) -> string, show: real -> string): (seq<string>, Option<PyError>)
    requires Matching(|calls|, headers, descs, formats, descs2)
  {
    Written(RowResults(SortBy(calculate, IdKey), calls, formats,
                       TableWidths(calls, headers, descs, formats, calculate, descs2, fixed), minfree, fixed, show))
  }

  /** What `printout(outputpath, columncall, columnheader, columndescription,
      columnformat, calculate, minfree, columndescription2)` writes to its
      output file, and the order it leaves `calculate` in. */
  function PrintoutOf(calls: seq<Conformer -> Cell>, headers: seq<string>, descs: seq<string>,
                      formats: seq<Format>, calculate: seq<Conformer>, minfree: real, descs2: seq<string>,
                      fixed: (real, nat) -> string, show: real -> string): (p: Printed)
    requires Matching(|calls|, headers, descs, formats, descs2)
    ensures SortedBy(p.sorted, IdKey) && multiset(p.sorted) == multiset(calculate)
    ensures |p.descs| == |descs| && |p.descs2| == |descs2|
    ensures forall i :: 0 <= i < |descs| ==>
              p.descs[i] == SplitDescription(descs[i], Descriptions2(descs2, |calls|)[i]).0
    ensures forall i :: 0 <= i < |descs2| ==> p.descs2[i] == SplitDescription(descs[i], descs2[i]).1
  {
    var split := SplitAll(descs, Descriptions2(descs2, |calls|));
    Printed(SortBy(calculate, IdKey), split.0, if |descs2| == 0 then descs2 else split.1,
            TableHeader(headers, descs, descs2, TableWidths(calls, headers, descs, formats, calculate, descs2, fixed))
            + TableRows(calls, headers, descs, formats, calculate, minfree, descs2, fixed, show).0,
            TableRows(calls, headers, descs, formats, calculate, minfree, descs2, fixed, show).1)
  }

  /** `printout`: sorts the conformers by id, splits the descriptions, measures
      the columns and writes the header lines and one line per conformer. */
  method Printout(calls: seq<Conformer -> Cell>, headers: seq<string>, descs: seq<string>,
                  formats: seq<Format>, calculate: seq<Conformer>, minfree: real, descs2: seq<string>,
                  fixed: (real, nat) -> string, show: real -> string) returns (p: Printed)
    requires Matching(|calls|, headers, descs, formats, descs2)
    ensures p == PrintoutOf(calls, headers, descs, formats, calculate, minfree, descs2, fixed, show)
  {
    var n := |calls|;
    var sorted := SortBy(calculate, IdKey);
    var d2 := descs2;
    if |d2| == 0 {
      d2 := seq(n, _ => "");
    }
    assert d2 == Descriptions2(descs2, n);
    var ds, ds2 := SplitDescriptions(descs, d2);
    var collength := ColumnLengths(Columns(calls, sorted), formats, Labels(headers, ds, ds2), fixed);
    var widths := collength[..n];
    var lines := HeaderLines(headers, ds, ds2, widths);
    var rows, error := WriteRows(sorted, calls, formats, widths, minfree, fixed, show);
    p := Printed(sorted, ds, if |descs2| == 0 then descs2 else ds2, lines + rows, error);
  }

  // ---------------------------------------------------------------------------
  // Properties of the table
  // ---------------------------------------------------------------------------

  /** Every value of every column can be measured. */
  predicate Measurable(calls: seq<Conformer -> Cell>, formats: seq<Format>, calculate: seq<Conformer>,
                       fixed: (real, nat) -> string)
    requires |formats| == |calls|
  {
    forall j, c :: 0 <= j < |calls| && c in calculate ==> CellWidth(calls[j](c), formats[j], fixed).Some?
  }

  /** A value that fits its column fills it exactly. */
  lemma PaddedCell(c: Cell, f: Format, w: nat, fixed: (real, nat) -> string, show: real -> string)
    requires CellWidth(c, f, fixed).Some? && CellWidth(c, f, fixed).value <= w
    ensures CellText(c, f, w, fixed, show).Ok? && |CellText(c, f, w, fixed, show).value| == w
  {
  }

  /** With values that fit, every row has the width of the table. */
  lemma RowFits(cells: seq<Cell>, formats: seq<Format>, widths: seq<nat>,
                fixed: (real, nat) -> string, show: real -> string)
    requires |formats| == |cells| && |widths| == |cells|
    requires forall i :: 0 <= i < |cells| ==> (CellWidth(cells[i], formats[i], fixed).Some?
                                             && CellWidth(cells[i], formats[i], fixed).value <= widths[i])
    ensures CellsOf(cells, formats, widths, fixed, show).Ok?
    ensures |JoinSpace(CellsOf(cells, formats, widths, fixed, show).value)| == LineWidth(widths)
  {
    forall i | 0 <= i < |cells|
      ensures CellText(cells[i], formats[i], widths[i], fixed, show).Ok?
    {
      PaddedCell(cells[i], formats[i], widths[i], fixed, show);
    }
    CellsOfErrs(cells, formats, widths, fixed, show);
    var texts := CellsOf(cells, formats, widths, fixed, show).value;
    forall i | 0 <= i < |cells|
      ensures |texts[i]| == widths[i]
    {
      PaddedCell(cells[i], formats[i], widths[i], fixed, show);
    }
    JoinedLength(texts, widths);
  }

  /** Labels that fit fill their columns too. */
  lemma LabelsFit(labels: seq<string>, widths: seq<nat>)
    requires |labels| == |widths|
    requires forall i :: 0 <= i < |labels| ==> |labels[i]| <= widths[i]
    ensures |JoinSpace(Aligned(labels, widths))| == LineWidth(widths)
  {
    JoinedLength(Aligned(labels, widths), widths);
  }

  /** Sorting keeps the conformers. */
  lemma SortedMembers(calculate: seq<Conformer>)
    ensures forall c :: c in calculate <==> c in SortBy(calculate, IdKey)
  {
    var sorted := SortBy(calculate, IdKey);
    forall c
      ensures c in calculate <==> c in sorted
    {
      assert c in calculate <==> c in multiset(calculate);
      assert c in sorted <==> c in multiset(sorted);
    }
  }

  /** When every value of the rows can be measured, so can every column, and
      each column's width covers each of its values. */
  lemma ColumnsMeasured(calls: seq<Conformer -> Cell>, formats: seq<Format>, rows: seq<Conformer>,
                        fixed: (real, nat) -> string)
    requires |formats| == |calls| && |rows| > 0
    requires forall j, c :: 0 <= j < |calls| && c in rows ==> CellWidth(calls[j](c), formats[j], fixed).Some?
    ensures forall j :: 0 <= j < |calls| ==> ColumnWidth(Columns(calls, rows)[j], formats[j], fixed).Some?
    ensures forall j, c :: 0 <= j < |calls| && c in rows ==>
              CellWidth(calls[j](c), formats[j], fixed).value <= ColumnWidth(Columns(calls, rows)[j], formats[j], fixed).value
  {
    var cols := Columns(calls, rows);
    forall j | 0 <= j < |calls|
      ensures ColumnWidth(cols[j], formats[j], fixed).Some?
    {
      assert forall k :: 0 <= k < |rows| ==> cols[j][k] == calls[j](rows[k]) && rows[k] in rows;
    }
    forall j, c | 0 <= j < |calls| && c in rows
      ensures CellWidth(calls[j](c), formats[j], fixed).value <= ColumnWidth(cols[j], formats[j], fixed).value
    {
      var k :| 0 <= k < |rows| && rows[k] == c;
      assert cols[j][k] == calls[j](c);
    }
  }

  /** When every value can be measured, every column is at least as wide as its
      labels and its values. */
  lemma WidthsCover(calls: seq<Conformer -> Cell>, headers: seq<string>, descs: seq<string>,
                    formats: seq<Format>, calculate: seq<Conformer>, descs2: seq<string>,
                    fixed: (real, nat) -> string)
    requires Matching(|calls|, headers, descs, formats, descs2)
    requires |calculate| > 0
    requires Measurable(calls, formats, calculate, fixed)
    ensures var split := SplitAll(descs, Descriptions2(descs2, |calls|));
            var widths := TableWidths(calls, headers, descs, formats, calculate, descs2, fixed);
            forall j :: 0 <= j < |calls| ==> |headers[j]| <= widths[j] && |split.0[j]| <= widths[j] && |split.1[j]| <= widths[j]
    ensures var widths := TableWidths(calls, headers, descs, formats, calculate, descs2, fixed);
            forall j, c :: 0 <= j < |calls| && c in calculate ==> CellWidth(calls[j](c), formats[j], fixed).value <= widths[j]
  {
    var sorted := SortBy(calculate, IdKey);
    SortedMembers(calculate);
    var split := SplitAll(descs, Descriptions2(descs2, |calls|));
    var cols := Columns(calls, sorted);
    var labels := Labels(headers, split.0, split.1);
    var widths := TableWidths(calls, headers, descs, formats, calculate, descs2, fixed);
    assert widths == ColumnLengthsOf(cols, formats, labels, fixed);
    ColumnsMeasured(calls, formats, sorted, fixed);
    forall j | 0 <= j < |calls|
      ensures FoundThrough(cols, formats, fixed, j)
    {
    }
  }

  /** Each row of a table whose values can be measured fills the table's width,
      plus the arrow on the rows of the lowest free energy. */
  lemma RowsFit(calls: seq<Conformer -> Cell>, formats: seq<Format>, widths: seq<nat>, c: Conformer,
                minfree: real, fixed: (real, nat) -> string, show: real -> string)
    requires |formats| == |calls| && |widths| == |calls| && |calls| > 0
    requires forall j :: 0 <= j < |calls| ==> (CellWidth(calls[j](c), formats[j], fixed).Some?
                                             && CellWidth(calls[j](c), formats[j], fixed).value <= widths[j])
    ensures var r := RowOf(c, calls, formats, widths, minfree, fixed, show);
            r.Ok? && |r.value| == LineWidth(widths) + (if c.freeEnergy == minfree then |Marker| + 1 else 0)
  {
    var cells := Cells(c, calls);
    RowFits(cells, formats, widths, fixed, show);
    var texts := CellsOf(cells, formats, widths, fixed, show).value;
    JoinAppend(texts, Marker);
  }

  /** When every value of the rows fits its column, the row loop writes every
      row, each of the table's width plus the arrow where it is due. */
  lemma RowsAllFit(rows: seq<Conformer>, calls: seq<Conformer -> Cell>, formats: seq<Format>, widths: seq<nat>,
                   minfree: real, fixed: (real, nat) -> string, show: real -> string)
    requires |formats| == |calls| && |widths| == |calls| && |calls| > 0
    requires forall j, c :: 0 <= j < |calls| && c in rows ==> (CellWidth(calls[j](c), formats[j], fixed).Some?
                                                           && CellWidth(calls[j](c), formats[j], fixed).value <= widths[j])
    ensures var w := Written(RowResults(rows, calls, formats, widths, minfree, fixed, show));
            w.1.None? && |w.0| == |rows|
            && forall k :: 0 <= k < |rows| ==>
                 |w.0[k]| == LineWidth(widths) + (if rows[k].freeEnergy == minfree then |Marker| + 1 else 0)
  {
    var results := RowResults(rows, calls, formats, widths, minfree, fixed, show);
    forall k | 0 <= k < |rows|
      ensures results[k].Ok?
      ensures |results[k].value| == LineWidth(widths) + (if rows[k].freeEnergy == minfree then |Marker| + 1 else 0)
    {
      assert rows[k] in rows;
      RowsFit(calls, formats, widths, rows[k], minfree, fixed, show);
    }
  }

  /** Labels that fit their columns give header lines of the table's width. */
  lemma HeaderWidths(headers: seq<string>, ds: seq<string>, ds2: seq<string>, widths: seq<nat>)
    requires |headers| == |widths| && |ds| == |widths| && |ds2| == |widths|
    requires forall j :: 0 <= j < |widths| ==> |headers[j]| <= widths[j] && |ds[j]| <= widths[j] && |ds2[j]| <= widths[j]
    ensures forall i :: 0 <= i < |HeaderLinesOf(headers, ds, ds2, widths)| ==>
              |HeaderLinesOf(headers, ds, ds2, widths)[i]| == LineWidth(widths)
  {
    var h := HeaderLinesOf(headers, ds, ds2, widths);
    forall i | 0 <= i < |h|
      ensures |h[i]| == LineWidth(widths)
    {
      if i == 0 {
        assert h[i] == JoinSpace(Aligned(headers, widths));
        LabelsFit(headers, widths);
      } else if i == 1 {
        assert h[i] == JoinSpace(Aligned(ds, widths));
        LabelsFit(ds, widths);
      } else {
        assert h[i] == JoinSpace(Aligned(ds2, widths));
        LabelsFit(ds2, widths);
      }
    }
  }

  /** The table is aligned: when every value can be measured, no row raises,
      every conformer gets a line, and every line, header lines included, has
      the same width, except that the rows of the conformers with the lowest
      free energy are longer by exactly the arrow and its separating space. */
  lemma TableAligned(calls: seq<Conformer -> Cell>, headers: seq<string>, descs: seq<string>,
                     formats: seq<Format>, calculate: seq<Conformer>, minfree: real, descs2: seq<string>,
                     fixed: (real, nat) -> string, show: real -> string)
    requires Matching(|calls|, headers, descs, formats, descs2)
    requires |calls| > 0 && |calculate| > 0
    requires Measurable(calls, formats, calculate, fixed)
    ensures var p := PrintoutOf(calls, headers, descs, formats, calculate, minfree, descs2, fixed, show);
            var width := LineWidth(TableWidths(calls, headers, descs, formats, calculate, descs2, fixed));
            p.error.None? && |p.lines| == 3 + |calculate|
            && (forall i :: 0 <= i < 3 ==> |p.lines[i]| == width)
            && (forall k :: 0 <= k < |calculate| ==>
                  |p.lines[3 + k]| == width + (if p.sorted[k].freeEnergy == minfree then |Marker| + 1 else 0))
  {
    var sorted := SortBy(calculate, IdKey);
    var split := SplitAll(descs, Descriptions2(descs2, |calls|));
    var widths := TableWidths(calls, headers, descs, formats, calculate, descs2, fixed);
    WidthsCover(calls, headers, descs, formats, calculate, descs2, fixed);
    SortedMembers(calculate);
    HeaderWidths(headers, split.0, split.1, widths);
    var header := TableHeader(headers, descs, descs2, widths);
    assert header == HeaderLinesOf(headers, split.0, split.1, widths);
    var rows := Written(RowResults(sorted, calls, formats, widths, minfree, fixed, show));
    assert TableRows(calls, headers, descs, formats, calculate, minfree, descs2, fixed, show) == rows;
    assert PrintoutOf(calls, headers, descs, formats, calculate, minfree, descs2, fixed, show)
           == Printed(sorted, split.0, if |descs2| == 0 then descs2 else split.1, header + rows.0, rows.1);
    RowsAllFit(sorted, calls, formats, widths, minfree, fixed, show);
  }

  /** With no conformers `max` of every column raises, so every column is 12
      wide and only the header lines are written. */
  lemma EmptyTable(calls: seq<Conformer -> Cell>, headers: seq<string>, descs: seq<string>,
                   formats: seq<Format>, minfree: real, descs2: seq<string>,
                   fixed: (real, nat) -> string, show: real -> string)
    requires Matching(|calls|, headers, descs, formats, descs2)
    ensures forall j :: 0 <= j < |calls| ==> TableWidths(calls, headers, descs, formats, [], descs2, fixed)[j] == 12
    ensures var p := PrintoutOf(calls, headers, descs, formats, [], minfree, descs2, fixed, show);
            p.error.None? && |p.lines| == (if |calls| > 0 then 3 else 2)
  {
    var sorted := SortBy([], IdKey);
    var cols := Columns(calls, sorted);
    forall j | 0 <= j < |calls|
      ensures !FoundThrough(cols, formats, fixed, j)
    {
      assert ColumnWidth(cols[0], formats[0], fixed).None?;
    }
  }

  /** A row raises exactly when some column with a fixed-point format holds a
      text. */
  lemma RowOfErrs(c: Conformer, calls: seq<Conformer -> Cell>, formats: seq<Format>, widths: seq<nat>,
                  minfree: real, fixed: (real, nat) -> string, show: real -> string)
    requires |formats| == |calls| && |widths| == |calls|
    ensures RowOf(c, calls, formats, widths, minfree, fixed, show).Err?
            <==> exists j :: 0 <= j < |calls| && formats[j].Fixed? && calls[j](c).Text?
  {
    var cells := Cells(c, calls);
    CellsOfErrs(cells, formats, widths, fixed, show);
    assert forall j :: 0 <= j < |calls| ==> (CellText(cells[j], formats[j], widths[j], fixed, show).Err?
                                           <==> formats[j].Fixed? && calls[j](c).Text?);
  }

  /** The row loop raises exactly when some row has a text in a column with a
      fixed-point format, and it raises ValueError. */
  lemma RowsRaise(rows: seq<Conformer>, calls: seq<Conformer -> Cell>, formats: seq<Format>, widths: seq<nat>,
                  minfree: real, fixed: (real, nat) -> string, show: real -> string)
    requires |formats| == |calls| && |widths| == |calls|
    ensures var w := Written(RowResults(rows, calls, formats, widths, minfree, fixed, show));
            (w.1.Some? <==> exists j, c :: 0 <= j < |calls| && c in rows && formats[j].Fixed? && calls[j](c).Text?)
            && (w.1.Some? ==> w.1 == Some(ValueError))
  {
    var results := RowResults(rows, calls, formats, widths, minfree, fixed, show);
    var w := Written(results);
    if w.1.Some? {
      var k := |w.0|;
      RowOfErrs(rows[k], calls, formats, widths, minfree, fixed, show);
      assert rows[k] in rows;
    } else {
      forall j, c | 0 <= j < |calls| && c in rows && formats[j].Fixed?
        ensures calls[j](c).Num?
      {
        var k :| 0 <= k < |rows| && rows[k] == c;
        RowOfErrs(rows[k], calls, formats, widths, minfree, fixed, show);
        assert results[k].Ok?;
      }
    }
  }

  /** A row raises exactly when some column with a fixed-point format holds a
      text, and then the exception is ValueError and the lines written stop
      before the first such conformer. */
  lemma RowErrors(calls: seq<Conformer -> Cell>, headers: seq<string>, descs: seq<string>,
                  formats: seq<Format>, calculate: seq<Conformer>, minfree: real, descs2: seq<string>,
                  fixed: (real, nat) -> string, show: real -> string)
    requires Matching(|calls|, headers, descs, formats, descs2)
    ensures var p := PrintoutOf(calls, headers, descs, formats, calculate, minfree, descs2, fixed, show);
            (p.error.Some? <==> exists j, c :: 0 <= j < |calls| && c in calculate && formats[j].Fixed? && calls[j](c).Text?)
            && (p.error.Some? ==> p.error == Some(ValueError))
  {
    var sorted := SortBy(calculate, IdKey);
    SortedMembers(calculate);
    var widths := TableWidths(calls, headers, descs, formats, calculate, descs2, fixed);
    var rows := Written(RowResults(sorted, calls, formats, widths, minfree, fixed, show));
    assert TableRows(calls, headers, descs, formats, calculate, minfree, descs2, fixed, show) == rows;
    assert PrintoutOf(calls, headers, descs, formats, calculate, minfree, descs2, fixed, show).error == rows.1;
    RowsRaise(sorted, calls, formats, widths, minfree, fixed, show);
  }
}
