/** The coordinate codec of censo_qm/utilities.py: `x2t` turns an xyz file
    (count line, comment line, then `element x y z` in Ångström) into a TURBOMOLE
    coord file (`$coord`, `x y z element` in bohr, `$end`); `t2x` reads a coord
    file back into xyz lines.  Files are their lists of lines; the number
    formatting (`.14f`, `.10f`) is the parameter `fmt`.  The round trips assume
    only that `float()` reads back what `fmt` printed as some rounding `rnd` of
    the value (`FormatsAs`), and `FixedFormatsAs` shows a fixed-point formatter
    that does. */
module Coordinates {
  import opened Builtins
  import opened Sorting
  import opened FixedPoint

  /** Bohr radius in Ångström, `BOHR2ANG` of censo_qm/cfg.py. */
  const Bohr2Ang: real := 0.52917721067

  /** One atom line: lower-case element symbol and its three coordinates. */
  datatype Atom = Atom(element: string, x: real, y: real, z: real)

  /** A token `str.split()` can return and that holds no '$'. */
  predicate Token(w: string)
  {
    |w| > 0 && NoSpace(w) && '$' !in w
  }

  /** What the coordinate formatting must give for the round trips: one token
      that `float()` reads back as the printed value, `rnd(v)`, a rounding of v. */
  ghost predicate FormatsAs(fmt: real -> string, rnd: real -> real)
  {
    forall v :: Token(fmt(v)) && ParseFloat(fmt(v)) == Some(rnd(v))
  }

  /** The atom as printed and read back: each coordinate rounded. */
  function RoundAtom(a: Atom, rnd: real -> real): Atom
  {
    Atom(a.element, rnd(a.x), rnd(a.y), rnd(a.z))
  }

  /** `float(ws[i])`: IndexError past the end, ValueError for a token that is not
      a number. */
  function FloatAt(ws: seq<string>, i: nat): (r: Result<real>)
    ensures i >= |ws| ==> r == Err(IndexError)
    ensures i < |ws| ==> (r.Ok? <==> ParseFloat(ws[i]).Some?)
    ensures i < |ws| && r.Ok? ==> r.value == ParseFloat(ws[i]).value
    ensures i < |ws| && r.Err? ==> r.error == ValueError
  {
    if i >= |ws| then Err(IndexError)
    else match ParseFloat(ws[i])
      case None => Err(ValueError)
      case Some(v) => Ok(v)
  }

  /** One xyz line as `x2t` and `ensemble2coord` read it: the element first
      (lower-cased), then x, y, z, each read in that order. */
  function ParseXyzLine(line: string): (r: Result<Atom>)
    ensures r.Ok? ==> |r.value.element| > 0
  {
    var ws := Words(line);
    if |ws| == 0 then Err(IndexError)
    else
      match (FloatAt(ws, 1), FloatAt(ws, 2), FloatAt(ws, 3))
      case (Err(e), _, _) => Err(e)
      case (Ok(_), Err(e), _) => Err(e)
      case (Ok(_), Ok(_), Err(e)) => Err(e)
      case (Ok(x), Ok(y), Ok(z)) => Ok(Atom(Lower(ws[0]), x, y, z))
  }

  /** One coord line as `t2x` reads it: x, y, z, then the element (lower-cased). */
  function ParseCoordLine(line: string): (r: Result<Atom>)
    ensures r.Ok? ==> |r.value.element| > 0
  {
    var ws := Words(line);
    match (FloatAt(ws, 0), FloatAt(ws, 1), FloatAt(ws, 2))
    case (Err(e), _, _) => Err(e)
    case (Ok(_), Err(e), _) => Err(e)
    case (Ok(_), Ok(_), Err(e)) => Err(e)
    case (Ok(x), Ok(y), Ok(z)) =>
      if |ws| < 4 then Err(IndexError) else Ok(Atom(Lower(ws[3]), x, y, z))
  }

  /** Every line read with `parse`, in order; the first failing line's error. */
  function ParseLines(lines: seq<string>, parse: string -> Result<Atom>): (r: Result<seq<Atom>>)
    ensures r.Ok? <==> forall i :: 0 <= i < |lines| ==> parse(lines[i]).Ok?
    ensures r.Ok? ==> |r.value| == |lines|
    ensures r.Ok? ==> forall i :: 0 <= i < |lines| ==> parse(lines[i]) == Ok(r.value[i])
  {
    if |lines| == 0 then Ok([])
    else
      var init := lines[..|lines| - 1];
      match ParseLines(init, parse)
      case Err(e) => Err(e)
      case Ok(atoms) =>
        match parse(lines[|lines| - 1])
        case Err(e) => Err(e)
        case Ok(a) => Ok(atoms + [a])
  }

  /** Ångström to bohr, as `x2t` and `ensemble2coord` convert. */
  function ToBohr(a: Atom): Atom
  {
    Atom(a.element, a.x / Bohr2Ang, a.y / Bohr2Ang, a.z / Bohr2Ang)
  }

  /** Bohr to Ångström, as `t2x` converts. */
  function ToAngstrom(a: Atom): Atom
  {
    Atom(a.element, a.x * Bohr2Ang, a.y * Bohr2Ang, a.z * Bohr2Ang)
  }

  /** The two unit conversions undo each other. */
  lemma AngstromOfBohr(a: Atom)
    ensures ToAngstrom(ToBohr(a)) == a
  {
    assert a.x / Bohr2Ang * Bohr2Ang == a.x;
    assert a.y / Bohr2Ang * Bohr2Ang == a.y;
    assert a.z / Bohr2Ang * Bohr2Ang == a.z;
  }

  /** A coord line: `x y z element` (the column padding is not modelled). */
  function CoordLine(a: Atom, fmt: real -> string): string
  {
    JoinSpace([fmt(a.x), fmt(a.y), fmt(a.z), a.element])
  }

  /** A coord file: the atom lines framed by `$coord` and `$end`. */
  function CoordFile(atoms: seq<Atom>, fmt: real -> string): (c: seq<string>)
    ensures |c| == |atoms| + 2 && c[0] == "$coord" && c[|c| - 1] == "$end"
  {
    ["$coord"] + Map((a: Atom) => CoordLine(a, fmt), atoms) + ["$end"]
  }

  /** An xyz line as `t2x` writes it: the element with a capital first letter. */
  function XyzLine(a: Atom, fmt: real -> string): string
    requires |a.element| > 0
  {
    JoinSpace([Capitalize(a.element), fmt(a.x), fmt(a.y), fmt(a.z)])
  }

  /** The xyz file `t2x` writes with `writexyz`: the atom count, an empty comment
      line, then the atom lines. */
  function XyzFile(lines: seq<string>): (f: seq<string>)
    ensures |f| == |lines| + 2 && f[2..] == lines
  {
    [IntToString(|lines|), ""] + lines
  }

  /** The lines `t2x` reads: from index 1 up to, not including, the first line
      that contains a '$'. */
  function CoordBody(coord: seq<string>): (body: seq<string>)
    ensures |coord| == 0 ==> body == []
    ensures |coord| > 0 ==> body <= coord[1..]
    ensures forall i :: 0 <= i < |body| ==> '$' !in body[i]
    ensures |coord| > 0 && |body| < |coord| - 1 ==> '$' in coord[|body| + 1]
  {
    if |coord| == 0 then [] else DollarFreePrefix(coord[1..])
  }

  /** The longest prefix of lines none of which contains a '$'. */
  function DollarFreePrefix(lines: seq<string>): (p: seq<string>)
    ensures p <= lines
    ensures forall i :: 0 <= i < |p| ==> '$' !in p[i]
    ensures |p| < |lines| ==> '$' in lines[|p|]
  {
    if |lines| == 0 || '$' in lines[0] then [] else [lines[0]] + DollarFreePrefix(lines[1..])
  }

  // ---------------------------------------------------------------------------
  // x2t and t2x

  /** `x2t`: the coord file written for an xyz file, or the error reading it
      raises (nothing is written then). */
  method X2t(xyz: seq<string>, fmt: real -> string) returns (r: Result<seq<string>>)
    ensures r == match ParseLines(PySlice(xyz, 2, |xyz|), ParseXyzLine)
                 case Ok(atoms) => Ok(CoordFile(Map(ToBohr, atoms), fmt))
                 case Err(e) => Err(e)
  {
    var lines := PySlice(xyz, 2, |xyz|);
    var atoms: seq<Atom> := [];
    for i := 0 to |lines|
      invariant ParseLines(lines[..i], ParseXyzLine) == Ok(atoms)
    {
      assert lines[..i + 1][..i] == lines[..i];
      var a := ParseXyzLine(lines[i]);
      if a.Err? {
        ParseLinesFails(lines, i + 1, ParseXyzLine);
        return Err(a.error);
      }
      atoms := atoms + [a.value];
    }
    assert lines[..|lines|] == lines;
    r := Ok(CoordFile(Map(ToBohr, atoms), fmt));
  }

  /** Once a prefix fails to parse, the whole list fails with the same error. */
  lemma {:induction false} ParseLinesFails(lines: seq<string>, k: nat, parse: string -> Result<Atom>)
    requires k <= |lines| && ParseLines(lines[..k], parse).Err?
    ensures ParseLines(lines, parse) == ParseLines(lines[..k], parse)
    decreases |lines| - k
  {
    if k < |lines| {
      assert lines[..k + 1][..k] == lines[..k];
      ParseLinesFails(lines, k + 1, parse);
    } else {
      assert lines[..k] == lines;
    }
  }

  /** What `t2x` returns for the lines of a coord file: the xyz lines of the
      atoms up to the first line with '$', converted to Ångström, and their
      count; or the error of the first line that does not parse. */
  function T2xOf(coord: seq<string>, fmt: real -> string): Result<(seq<string>, nat)>
  {
    match ParseLines(CoordBody(coord), ParseCoordLine)
    case Ok(atoms) => Ok((XyzLines(Map(ToAngstrom, atoms), fmt), |atoms|))
    case Err(e) => Err(e)
  }

  /** `t2x`: the xyz lines and the atom count for a coord file, or the error
      reading it raises. */
  method T2x(coord: seq<string>, fmt: real -> string) returns (r: Result<(seq<string>, nat)>)
    ensures r == T2xOf(coord, fmt)
  {
    if |coord| == 0 {
      return Ok(([], 0));
    }
    ghost var body := CoordBody(coord);
    var atoms: seq<Atom> := [];
    var i := 1;
    while i < |coord|
      invariant 1 <= i <= |body| + 1
      invariant ParseLines(body[..i - 1], ParseCoordLine) == Ok(atoms)
      decreases |coord| - i
    {
      if '$' in coord[i] {
        break;
      }
      assert i - 1 < |body| by {
        if i - 1 >= |body| {
          assert false;
        }
      }
      assert body[i - 1] == coord[i];
      assert body[..i][..i - 1] == body[..i - 1];
      var a := ParseCoordLine(coord[i]);
      if a.Err? {
        ParseLinesFails(body, i, ParseCoordLine);
        return Err(a.error);
      }
      atoms := atoms + [a.value];
      i := i + 1;
    }
    assert body[..i - 1] == body by {
      if i - 1 < |body| {
        assert false;
      }
    }
    var xyz := XyzLines(Map(ToAngstrom, atoms), fmt);
    r := Ok((xyz, |atoms|));
  }

  /** The xyz lines of `t2x` for atoms already in Ångström. */
  function XyzLines(atoms: seq<Atom>, fmt: real -> string): (lines: seq<string>)
    ensures |lines| == |atoms|
  {
    seq(|atoms|, i requires 0 <= i < |atoms| =>
      if |atoms[i].element| > 0 then XyzLine(atoms[i], fmt) else "")
  }

  // ---------------------------------------------------------------------------
  // Round trips

  /** Atoms as `x2t` reads them: a lower-case token for the element. */
  predicate ReadElement(a: Atom)
  {
    Token(a.element) && Lower(a.element) == a.element
  }

  lemma JoinNoDollar(ws: seq<string>)
    requires forall i :: 0 <= i < |ws| ==> '$' !in ws[i]
    ensures '$' !in JoinSpace(ws)
  {
    if |ws| > 1 {
      JoinNoDollar(ws[1..]);
      var t := JoinSpace(ws[1..]);
      assert JoinSpace(ws) == ws[0] + " " + t;
      assert forall k :: 0 <= k < |ws[0] + " " + t| ==>
        (ws[0] + " " + t)[k] == (if k < |ws[0]| then ws[0][k] else if k == |ws[0]| then ' ' else t[k - |ws[0]| - 1]);
    }
  }

  /** A coord line reads back as the atom it was written from, with the
      coordinates as printed. */
  lemma CoordLineRoundTrip(a: Atom, fmt: real -> string, rnd: real -> real)
    requires FormatsAs(fmt, rnd) && ReadElement(a)
    ensures '$' !in CoordLine(a, fmt)
    ensures ParseCoordLine(CoordLine(a, fmt)) == Ok(RoundAtom(a, rnd))
  {
    var ws := [fmt(a.x), fmt(a.y), fmt(a.z), a.element];
    assert Token(fmt(a.x)) && Token(fmt(a.y)) && Token(fmt(a.z));
    CoordLineWords(a, fmt);
    assert ParseFloat(ws[0]) == Some(rnd(a.x)) && ParseFloat(ws[1]) == Some(rnd(a.y))
           && ParseFloat(ws[2]) == Some(rnd(a.z));
    ParseCoordWords(CoordLine(a, fmt), ws, RoundAtom(a, rnd));
  }

  /** A coord line splits into the four tokens it was joined from. */
  lemma CoordLineWords(a: Atom, fmt: real -> string)
    requires Token(fmt(a.x)) && Token(fmt(a.y)) && Token(fmt(a.z)) && Token(a.element)
    ensures '$' !in CoordLine(a, fmt)
    ensures Words(CoordLine(a, fmt)) == [fmt(a.x), fmt(a.y), fmt(a.z), a.element]
  {
    var ws := [fmt(a.x), fmt(a.y), fmt(a.z), a.element];
    JoinNoDollar(ws);
    WordsOfJoin(ws);
  }

  /** A line whose words are three numbers and the element reads as that atom. */
  lemma ParseCoordWords(line: string, ws: seq<string>, a: Atom)
    requires Words(line) == ws && |ws| == 4
    requires ParseFloat(ws[0]) == Some(a.x) && ParseFloat(ws[1]) == Some(a.y) && ParseFloat(ws[2]) == Some(a.z)
    requires ws[3] == a.element && Lower(a.element) == a.element
    ensures ParseCoordLine(line) == Ok(a)
  {
    assert FloatAt(ws, 0) == Ok(a.x) && FloatAt(ws, 1) == Ok(a.y) && FloatAt(ws, 2) == Ok(a.z);
  }

  /** The coord file `x2t` writes reads back, under `t2x`, as the same atoms,
      with the coordinates as printed. */
  lemma {:induction false} CoordRoundTrip(atoms: seq<Atom>, fmt: real -> string, rnd: real -> real)
    requires FormatsAs(fmt, rnd)
    requires forall i :: 0 <= i < |atoms| ==> ReadElement(atoms[i])
    ensures CoordBody(CoordFile(atoms, fmt)) == Map((a: Atom) => CoordLine(a, fmt), atoms)
    ensures ParseLines(CoordBody(CoordFile(atoms, fmt)), ParseCoordLine)
            == Ok(Map((a: Atom) => RoundAtom(a, rnd), atoms))
  {
    var lines := Map((a: Atom) => CoordLine(a, fmt), atoms);
    var read := Map((a: Atom) => RoundAtom(a, rnd), atoms);
    var c := CoordFile(atoms, fmt);
    forall i | 0 <= i < |atoms|
      ensures '$' !in lines[i] && ParseCoordLine(lines[i]) == Ok(read[i])
    {
      CoordLineRoundTrip(atoms[i], fmt, rnd);
    }
    assert c[1..] == lines + ["$end"];
    DollarFreeBeforeEnd(lines, ["$end"]);
    ParseAll(lines, read, ParseCoordLine);
  }

  /** A list of '$'-free lines followed by one with a '$' is cut right there. */
  lemma {:induction false} DollarFreeBeforeEnd(lines: seq<string>, rest: seq<string>)
    requires forall i :: 0 <= i < |lines| ==> '$' !in lines[i]
    requires |rest| > 0 && '$' in rest[0]
    ensures DollarFreePrefix(lines + rest) == lines
  {
    if |lines| > 0 {
      assert (lines + rest)[1..] == lines[1..] + rest;
      DollarFreeBeforeEnd(lines[1..], rest);
      assert [lines[0]] + lines[1..] == lines;
    } else {
      assert (lines + rest)[0] == rest[0];
    }
  }

  /** Lines each of which parses to the matching atom parse to the atoms. */
  lemma ParseAll(lines: seq<string>, atoms: seq<Atom>, parse: string -> Result<Atom>)
    requires |lines| == |atoms|
    requires forall i :: 0 <= i < |lines| ==> parse(lines[i]) == Ok(atoms[i])
    ensures ParseLines(lines, parse) == Ok(atoms)
  {
    var r := ParseLines(lines, parse);
    assert r.Ok?;
    assert forall i :: 0 <= i < |lines| ==> r.value[i] == atoms[i];
    assert r.value == atoms;
  }

  /** An xyz line whose element token, if any, holds no '$'. */
  predicate DollarFreeElement(line: string)
  {
    |Words(line)| > 0 ==> '$' !in Words(line)[0]
  }

  /** The atoms `t2x` gives back for those `x2t` wrote: each coordinate
      converted to bohr, rounded as printed, and converted back to Ångström. */
  function Reread(atoms: seq<Atom>, rnd: real -> real): seq<Atom>
  {
    Map((a: Atom) => RereadAtom(a, rnd), atoms)
  }

  /** One atom converted to bohr, rounded as printed, and converted back. */
  function RereadAtom(a: Atom, rnd: real -> real): Atom
  {
    ToAngstrom(RoundAtom(ToBohr(a), rnd))
  }

  /** Reading the rounded bohr atoms back in Ångström gives `Reread`. */
  lemma RereadMap(atoms: seq<Atom>, rnd: real -> real)
    ensures Map(ToAngstrom, Map((a: Atom) => RoundAtom(a, rnd), Map(ToBohr, atoms))) == Reread(atoms, rnd)
  {
  }

  /** `t2x(x2t(xyz))`: one xyz line per atom line of the input, in order, for
      the input's atoms with their coordinates as the coord file printed them;
      the atom count is the number of those lines. */
  lemma T2xOfX2t(xyz: seq<string>, fmt: real -> string, rnd: real -> real, fmt2: real -> string)
    requires FormatsAs(fmt, rnd)
    requires ParseLines(PySlice(xyz, 2, |xyz|), ParseXyzLine).Ok?
    requires forall i :: 2 <= i < |xyz| ==> DollarFreeElement(xyz[i])
    ensures var atoms := ParseLines(PySlice(xyz, 2, |xyz|), ParseXyzLine).value;
            |atoms| == (if |xyz| < 2 then 0 else |xyz| - 2)
            && T2xOf(CoordFile(Map(ToBohr, atoms), fmt), fmt2)
               == Ok((XyzLines(Reread(atoms, rnd), fmt2), |atoms|))
  {
    var lines := PySlice(xyz, 2, |xyz|);
    assert forall i :: 0 <= i < |lines| ==> lines[i] == xyz[i + 2];
    var atoms := ParseLines(lines, ParseXyzLine).value;
    ReadBack(lines, atoms, fmt, rnd);
    RereadMap(atoms, rnd);
  }

  lemma ReadBack(lines: seq<string>, atoms: seq<Atom>, fmt: real -> string, rnd: real -> real)
    requires FormatsAs(fmt, rnd)
    requires ParseLines(lines, ParseXyzLine) == Ok(atoms)
    requires forall i :: 0 <= i < |lines| ==> DollarFreeElement(lines[i])
    ensures ParseLines(CoordBody(CoordFile(Map(ToBohr, atoms), fmt)), ParseCoordLine)
            == Ok(Map((a: Atom) => RoundAtom(a, rnd), Map(ToBohr, atoms)))
  {
    BohrElements(lines, atoms);
    CoordRoundTrip(Map(ToBohr, atoms), fmt, rnd);
  }

  /** Same element, and each coordinate of b within e of a's. */
  predicate Near(b: Atom, a: Atom, e: real)
  {
    b.element == a.element
    && -e <= b.x - a.x <= e && -e <= b.y - a.y <= e && -e <= b.z - a.z <= e
  }

  /** When the printing rounds by at most eps, every coordinate `t2x(x2t(xyz))`
      gives back is within eps bohr of the input's, and the elements are kept. */
  lemma RereadWithin(atoms: seq<Atom>, rnd: real -> real, eps: real)
    requires forall v :: -eps <= rnd(v) - v <= eps
    ensures |Reread(atoms, rnd)| == |atoms|
    ensures forall i :: 0 <= i < |atoms| ==> Near(Reread(atoms, rnd)[i], atoms[i], eps * Bohr2Ang)
  {
    forall i | 0 <= i < |atoms|
      ensures Near(Reread(atoms, rnd)[i], atoms[i], eps * Bohr2Ang)
    {
      NearReread(atoms[i], rnd, eps);
    }
  }

  lemma NearReread(a: Atom, rnd: real -> real, eps: real)
    requires forall v :: -eps <= rnd(v) - v <= eps
    ensures Near(RereadAtom(a, rnd), a, eps * Bohr2Ang)
  {
    ScaledError(a.x, rnd(a.x / Bohr2Ang), eps);
    ScaledError(a.y, rnd(a.y / Bohr2Ang), eps);
    ScaledError(a.z, rnd(a.z / Bohr2Ang), eps);
  }

  /** A value in bohr off by at most eps is off by at most eps * BOHR2ANG in Ångström. */
  lemma ScaledError(x: real, r: real, eps: real)
    requires -eps <= r - x / Bohr2Ang <= eps
    ensures -eps * Bohr2Ang <= r * Bohr2Ang - x <= eps * Bohr2Ang
  {
    assert x / Bohr2Ang * Bohr2Ang == x;
    assert r * Bohr2Ang - x == (r - x / Bohr2Ang) * Bohr2Ang;
  }

  /** Coordinates that the printing renders exactly in bohr come back unchanged. */
  lemma RereadExact(atoms: seq<Atom>, rnd: real -> real)
    requires forall i :: 0 <= i < |atoms| ==> RoundAtom(ToBohr(atoms[i]), rnd) == ToBohr(atoms[i])
    ensures Reread(atoms, rnd) == atoms
  {
    forall i | 0 <= i < |atoms|
      ensures Reread(atoms, rnd)[i] == atoms[i]
    {
      AngstromOfBohr(atoms[i]);
    }
  }

  /** `f"{v: .{d}f}"` for d >= 1 is a formatting the round trips accept: one
      token (the space the sign flag puts before a non-negative value is dropped
      by `str.split()`) that `float()` reads back as v rounded to d decimals. */
  lemma FixedFormatsAs(d: nat)
    requires d >= 1
    ensures FormatsAs(v => FixedFormat(v, d), v => RoundTo(v, d))
  {
    forall v
      ensures Token(FixedFormat(v, d)) && ParseFloat(FixedFormat(v, d)) == Some(RoundTo(v, d))
    {
      FixedReadsBack(v, d);
    }
  }

  /** `x2t`'s coordinate format, `.14f`, and the rounding it applies. */
  function X2tFormat(v: real): string
  {
    FixedFormat(v, 14)
  }

  function X2tRound(v: real): real
  {
    RoundTo(v, 14)
  }

  lemma X2tFormatsAs()
    ensures FormatsAs(X2tFormat, X2tRound)
  {
    forall v
      ensures Token(X2tFormat(v)) && ParseFloat(X2tFormat(v)) == Some(X2tRound(v))
    {
      FixedReadsBack(v, 14);
    }
  }

  /** `t2x(x2t(xyz))` with `x2t`'s own `.14f`: the xyz lines of the input's
      atoms as re-read, each coordinate within half a unit of the 14th decimal
      in bohr (that times BOHR2ANG in Ångström) of the input's. */
  lemma T2xOfX2tWithin(xyz: seq<string>, fmt2: real -> string)
    requires ParseLines(PySlice(xyz, 2, |xyz|), ParseXyzLine).Ok?
    requires forall i :: 2 <= i < |xyz| ==> DollarFreeElement(xyz[i])
    ensures var atoms := ParseLines(PySlice(xyz, 2, |xyz|), ParseXyzLine).value;
            var eps := HalfUnit(14) * Bohr2Ang;
            T2xOf(CoordFile(Map(ToBohr, atoms), X2tFormat), fmt2)
            == Ok((XyzLines(Reread(atoms, X2tRound), fmt2), |atoms|))
            && forall i :: 0 <= i < |atoms| ==> Near(Reread(atoms, X2tRound)[i], atoms[i], eps)
  {
    var atoms := ParseLines(PySlice(xyz, 2, |xyz|), ParseXyzLine).value;
    X2tFormatsAs();
    T2xOfX2t(xyz, X2tFormat, X2tRound, fmt2);
    forall v
      ensures -HalfUnit(14) <= X2tRound(v) - v <= HalfUnit(14)
    {
      RoundToWithin(v, 14);
    }
    RereadWithin(atoms, X2tRound, HalfUnit(14));
  }

  lemma BohrElements(lines: seq<string>, atoms: seq<Atom>)
    requires ParseLines(lines, ParseXyzLine) == Ok(atoms)
    requires forall i :: 0 <= i < |lines| ==> DollarFreeElement(lines[i])
    ensures forall i :: 0 <= i < |atoms| ==> ReadElement(Map(ToBohr, atoms)[i])
  {
    forall i | 0 <= i < |atoms|
      ensures ReadElement(Map(ToBohr, atoms)[i])
    {
      assert ParseXyzLine(lines[i]) == Ok(atoms[i]);
      XyzElement(lines[i]);
    }
  }

  /** The element `x2t` reads is a lower-case token when the input token has no '$'. */
  lemma XyzElement(line: string)
    requires ParseXyzLine(line).Ok? && DollarFreeElement(line)
    ensures ReadElement(ParseXyzLine(line).value)
  {
    var w := Words(line)[0];
    LowerToken(w);
  }

  lemma {:induction false} LowerToken(w: string)
    requires |w| > 0 && NoSpace(w) && '$' !in w
    ensures Token(Lower(w)) && Lower(Lower(w)) == Lower(w)
  {
    LowerChars(w);
    LowerChars(Lower(w));
    assert forall k :: 0 <= k < |w| ==> Lower(Lower(w))[k] == Lower(w)[k];
  }

  /** `Lower` maps each character on its own: upper-case ASCII to lower case,
      everything else unchanged. */
  lemma {:induction false} LowerChars(s: string)
    ensures forall k :: 0 <= k < |s| ==>
      Lower(s)[k] == if 'A' <= s[k] <= 'Z' then (s[k] as int + 32) as char else s[k]
  {
    if |s| > 0 {
      LowerChars(s[1..]);
      assert forall k :: 1 <= k < |s| ==> Lower(s)[k] == Lower(s[1..])[k - 1];
    }
  }

  /** `x2t(t2x(coord))`, through the xyz file `t2x` writes: the same atoms,
      element symbols lower-cased again, coordinates as printed. */
  lemma X2tOfT2x(atoms: seq<Atom>, fmt: real -> string, rnd: real -> real)
    requires FormatsAs(fmt, rnd)
    requires forall i :: 0 <= i < |atoms| ==> ReadElement(atoms[i])
    ensures ParseLines(XyzFile(XyzLines(atoms, fmt))[2..], ParseXyzLine)
            == Ok(Map((a: Atom) => RoundAtom(a, rnd), atoms))
  {
    var lines := XyzLines(atoms, fmt);
    var read := Map((a: Atom) => RoundAtom(a, rnd), atoms);
    forall i | 0 <= i < |atoms|
      ensures ParseXyzLine(lines[i]) == Ok(read[i])
    {
      XyzLineRoundTrip(atoms[i], fmt, rnd);
    }
    ParseAll(lines, read, ParseXyzLine);
  }

  /** An xyz line as `t2x` writes it reads back under `x2t` as the atom, with
      the coordinates as printed. */
  lemma XyzLineRoundTrip(a: Atom, fmt: real -> string, rnd: real -> real)
    requires FormatsAs(fmt, rnd) && ReadElement(a)
    ensures ParseXyzLine(XyzLine(a, fmt)) == Ok(RoundAtom(a, rnd))
  {
    var e := a.element;
    var cap := Capitalize(e);
    CapitalizeToken(e);
    var ws := [cap, fmt(a.x), fmt(a.y), fmt(a.z)];
    assert Token(fmt(a.x)) && Token(fmt(a.y)) && Token(fmt(a.z));
    WordsOfJoin(ws);
  }

  /** Capitalising a lower-case token keeps it a token, and lower-casing undoes it. */
  lemma CapitalizeToken(e: string)
    requires Token(e) && Lower(e) == e
    ensures |Capitalize(e)| > 0 && NoSpace(Capitalize(e)) && Lower(Capitalize(e)) == e
  {
    var cap := Capitalize(e);
    LowerChars(e);
    LowerChars(cap);
    assert forall k :: 1 <= k < |e| ==> cap[k] == e[k];
    assert forall k :: 0 <= k < |e| ==> Lower(cap)[k] == Lower(e)[k];
  }
}
