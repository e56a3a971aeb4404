/** The NMR reference shieldings of censo_qm/cfg.py (`NmrRef`): ten tables, one
    per nucleus (1H, 13C, 19F, 29Si, 31P) and program (TURBOMOLE, ORCA), each
    nested as reference molecule, geometry functional, shielding functional,
    basis set and solvent down to a shielding constant.  `NMRRef_to_dict`
    exports them under fixed keys and `dict_to_NMRRef` reads them back, taking
    the class default for every key the dict lacks. */
module NmrRef {

  type Shieldings = map<string, map<string, map<string, map<string, map<string, real>>>>>

  datatype Reference = Reference(
    hTm: Shieldings, cTm: Shieldings, fTm: Shieldings, siTm: Shieldings, pTm: Shieldings,
    hOrca: Shieldings, cOrca: Shieldings, fOrca: Shieldings, siOrca: Shieldings, pOrca: Shieldings)

  /** The ten tables, named as the class attributes are. */
  datatype TableName = HTm | CTm | FTm | SiTm | PTm | HOrca | COrca | FOrca | SiOrca | POrca

  /** The dict key a table is exported under. */
  function Key(n: TableName): string
  {
    match n
    case HTm => "h_tm_shieldings"
    case CTm => "c_tm_shieldings"
    case FTm => "f_tm_shieldings"
    case SiTm => "si_tm_shieldings"
    case PTm => "p_tm_shieldings"
    case HOrca => "h_orca_shieldings"
    case COrca => "c_orca_shieldings"
    case FOrca => "f_orca_shieldings"
    case SiOrca => "si_orca_shieldings"
    case POrca => "p_orca_shieldings"
  }

  /** Different tables go under different keys. */
  lemma KeyInjective()
    ensures forall a, b :: Key(a) == Key(b) ==> a == b
  {
    forall a, b | Key(a) == Key(b)
      ensures a == b
    {
      assert Key(a)[0] == Key(b)[0] && |Key(a)| == |Key(b)|;
    }
  }

  function Table(r: Reference, n: TableName): Shieldings
  {
    match n
    case HTm => r.hTm
    case CTm => r.cTm
    case FTm => r.fTm
    case SiTm => r.siTm
    case PTm => r.pTm
    case HOrca => r.hOrca
    case COrca => r.cOrca
    case FOrca => r.fOrca
    case SiOrca => r.siOrca
    case POrca => r.pOrca
  }

  /** Two references with the same ten tables are the same. */
  lemma TablesDetermine(r: Reference, s: Reference)
    requires forall n: TableName :: Table(r, n) == Table(s, n)
    ensures r == s
  {
    assert Table(r, HTm) == Table(s, HTm) && Table(r, CTm) == Table(s, CTm);
    assert Table(r, FTm) == Table(s, FTm) && Table(r, SiTm) == Table(s, SiTm);
    assert Table(r, PTm) == Table(s, PTm) && Table(r, HOrca) == Table(s, HOrca);
    assert Table(r, COrca) == Table(s, COrca) && Table(r, FOrca) == Table(s, FOrca);
    assert Table(r, SiOrca) == Table(s, SiOrca) && Table(r, POrca) == Table(s, POrca);
  }

  /** `NMRRef_to_dict()`: every table under its key, and nothing else. */
  function ToDict(r: Reference): (d: map<string, Shieldings>)
    ensures forall n: TableName :: Key(n) in d && d[Key(n)] == Table(r, n)
    ensures forall k :: k in d ==> exists n: TableName :: k == Key(n)
  {
    AllNamed();
    Export(r, [HTm, CTm, FTm, SiTm, PTm, HOrca, COrca, FOrca, SiOrca, POrca])
  }

  /** The dict holding the named tables. */
  function Export(r: Reference, names: seq<TableName>): (d: map<string, Shieldings>)
    ensures forall n :: n in names ==> Key(n) in d && d[Key(n)] == Table(r, n)
    ensures forall k :: k in d ==> exists n :: n in names && k == Key(n)
  {
    if |names| == 0 then map[]
    else
      var rest := Export(r, names[1..]);
      KeyInjective();
      assert forall n :: n in names ==> n == names[0] || n in names[1..];
      rest[Key(names[0]) := Table(r, names[0])]
  }

  lemma AllNamed()
    ensures forall n: TableName :: n in [HTm, CTm, FTm, SiTm, PTm, HOrca, COrca, FOrca, SiOrca, POrca]
  {
    forall n: TableName
      ensures n in [HTm, CTm, FTm, SiTm, PTm, HOrca, COrca, FOrca, SiOrca, POrca]
    {
      match n
      case HTm => case CTm => case FTm => case SiTm => case PTm =>
      case HOrca => case COrca => case FOrca => case SiOrca => case POrca =>
    }
  }

  /** `dictionary.get(key, default)`. */
  function Get(d: map<string, Shieldings>, n: TableName, defaults: Reference): Shieldings
  {
    if Key(n) in d then d[Key(n)] else Table(defaults, n)
  }

  /** `dict_to_NMRRef(dictionary)`, with `defaults` the tables a fresh `NmrRef`
      carries: each table is read from its key when present and defaults
      otherwise. */
  function FromDict(d: map<string, Shieldings>, defaults: Reference): (r: Reference)
    ensures forall n: TableName :: Table(r, n) == Get(d, n, defaults)
  {
    Reference(Get(d, HTm, defaults), Get(d, CTm, defaults), Get(d, FTm, defaults), Get(d, SiTm, defaults),
              Get(d, PTm, defaults), Get(d, HOrca, defaults), Get(d, COrca, defaults), Get(d, FOrca, defaults),
              Get(d, SiOrca, defaults), Get(d, POrca, defaults))
  }

  /** Exporting and reading back reproduces all ten tables, whatever the
      defaults. */
  lemma RoundTrip(r: Reference, defaults: Reference)
    ensures FromDict(ToDict(r), defaults) == r
  {
    var back := FromDict(ToDict(r), defaults);
    forall n: TableName
      ensures Table(back, n) == Table(r, n)
    {
    }
    TablesDetermine(back, r);
  }

  /** A dict without any of the ten keys gives the defaults. */
  lemma EmptyGivesDefaults(d: map<string, Shieldings>, defaults: Reference)
    requires forall n: TableName :: Key(n) !in d
    ensures FromDict(d, defaults) == defaults
  {
    var r := FromDict(d, defaults);
    forall n: TableName
      ensures Table(r, n) == Table(defaults, n)
    {
    }
    TablesDetermine(r, defaults);
  }

  /** Only the ten keys are read: dicts that agree on them give the same
      reference. */
  lemma OnlyKeysRead(d1: map<string, Shieldings>, d2: map<string, Shieldings>, defaults: Reference)
    requires forall n: TableName :: (Key(n) in d1 <==> Key(n) in d2)
    requires forall n: TableName :: Key(n) in d1 ==> d1[Key(n)] == d2[Key(n)]
    ensures FromDict(d1, defaults) == FromDict(d2, defaults)
  {
    var r1, r2 := FromDict(d1, defaults), FromDict(d2, defaults);
    forall n: TableName
      ensures Table(r1, n) == Table(r2, n)
    {
    }
    TablesDetermine(r1, r2);
  }

  /** Reading a dict and exporting again keeps every table the dict had and
      fills in the defaults for the rest. */
  lemma ExportAfterRead(d: map<string, Shieldings>, defaults: Reference)
    ensures forall n: TableName :: ToDict(FromDict(d, defaults))[Key(n)]
                                   == (if Key(n) in d then d[Key(n)] else Table(defaults, n))
  {
  }
}
