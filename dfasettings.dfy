/** The density functional settings of censo_qm/cfg.py (`dfa_settings`): a
    table of functionals, each with its name in TURBOMOLE and in ORCA (or none
    when that program lacks it), its dispersion correction, the parts of a run
    it may be used for and its type, plus a table of relay names that stand for
    a functional of the first table.  Python dicts keep their insertion order,
    so both tables are association lists with distinct keys, and the lists the
    queries return come out in table order. */
module DfaSettings {
  import opened Builtins

  datatype Functional = Functional(tm: Option<string>, orca: Option<string>, disp: string,
                                   part: seq<string>, kind: string)

  type Table = seq<(string, Functional)>
  type Relays = seq<(string, string)>

  predicate DistinctKeys<V>(t: seq<(string, V)>)
  {
    forall i, j :: 0 <= i < j < |t| ==> t[i].0 != t[j].0
  }

  /** `functionals.get(name)`. */
  function Lookup(t: Table, name: string): (r: Option<Functional>)
    ensures r.None? <==> forall i :: 0 <= i < |t| ==> t[i].0 != name
    ensures r.Some? ==> exists i :: 0 <= i < |t| && t[i] == (name, r.value)
    ensures DistinctKeys(t) ==> forall i :: 0 <= i < |t| && t[i].0 == name ==> r == Some(t[i].1)
  {
    if |t| == 0 then None
    else if t[0].0 == name then Some(t[0].1)
    else
      var r := Lookup(t[1..], name);
      assert forall i :: 1 <= i < |t| ==> t[1..][i - 1] == t[i];
      r
  }

  /** `[name for name in functionals if keep(functionals[name])]`. */
  function KeysWhere(t: Table, keep: Functional -> bool): (r: seq<string>)
    ensures |r| <= |t|
    ensures forall x :: x in r <==> exists i :: 0 <= i < |t| && t[i].0 == x && keep(t[i].1)
    ensures DistinctKeys(t) ==> forall i, j :: 0 <= i < j < |r| ==> r[i] != r[j]
  {
    if |t| == 0 then []
    else
      var rest := KeysWhere(t[1..], keep);
      assert forall i :: 1 <= i < |t| ==> t[1..][i - 1] == t[i];
      if keep(t[0].1) then
        assert DistinctKeys(t) ==> t[0].0 !in rest;
        [t[0].0] + rest
      else rest
  }

  /** With distinct keys, a name is kept exactly when its own entry is. */
  lemma KeptByLookup(t: Table, keep: Functional -> bool, x: string)
    requires DistinctKeys(t)
    ensures x in KeysWhere(t, keep) <==> Lookup(t, x).Some? && keep(Lookup(t, x).value)
  {
  }

  // ---------------------------------------------------------------------------
  // The type and dispersion queries

  predicate DispIncluded(f: Functional)
  {
    f.disp == "included" || f.disp == "composite"
  }

  /** `disp_already_included_in_func()`. */
  function DispAlreadyIncludedInFunc(t: Table): seq<string>
  {
    KeysWhere(t, DispIncluded)
  }

  predicate IsHybrid(f: Functional)
  {
    f.kind == "global_hybrid" || f.kind == "rsh_hybrid" || f.kind == "composite_hybrid"
  }

  /** `hybrid_dfa()`. */
  function HybridDfa(t: Table): seq<string>
  {
    KeysWhere(t, IsHybrid)
  }

  /** `dh_dfa()` as written: `("doublehybrid")` is a parenthesised string, not
      a tuple, so `in` tests whether the type is a substring of "doublehybrid". */
  function DhDfaAsWritten(t: Table): seq<string>
  {
    KeysWhere(t, KindWithinDoubleHybrid)
  }

  predicate KindWithinDoubleHybrid(f: Functional)
  {
    IsSubstring(f.kind, "doublehybrid")
  }

  predicate IsDoubleHybrid(f: Functional)
  {
    f.kind == "doublehybrid"
  }

  /** `dh_dfa()` as intended: the functionals of type "doublehybrid". */
  function DhDfa(t: Table): seq<string>
  {
    KeysWhere(t, IsDoubleHybrid)
  }

  /** The listed functionals are exactly those whose dispersion is included in
      the functional or in the composite method, each listed once. */
  lemma DispIncludedExactly(t: Table, x: string)
    requires DistinctKeys(t)
    ensures x in DispAlreadyIncludedInFunc(t) <==> Lookup(t, x).Some? && DispIncluded(Lookup(t, x).value)
    ensures forall i, j :: 0 <= i < j < |DispAlreadyIncludedInFunc(t)| ==>
              DispAlreadyIncludedInFunc(t)[i] != DispAlreadyIncludedInFunc(t)[j]
  {
    KeptByLookup(t, DispIncluded, x);
  }

  /** The listed functionals are exactly the global, range-separated and
      composite hybrids, each listed once. */
  lemma HybridExactly(t: Table, x: string)
    requires DistinctKeys(t)
    ensures x in HybridDfa(t) <==> Lookup(t, x).Some? && IsHybrid(Lookup(t, x).value)
    ensures forall i, j :: 0 <= i < j < |HybridDfa(t)| ==> HybridDfa(t)[i] != HybridDfa(t)[j]
  {
    KeptByLookup(t, IsHybrid, x);
  }

  /** The corrected query lists exactly the double hybrids, each once. */
  lemma DhExactly(t: Table, x: string)
    requires DistinctKeys(t)
    ensures x in DhDfa(t) <==> Lookup(t, x).Some? && Lookup(t, x).value.kind == "doublehybrid"
    ensures forall i, j :: 0 <= i < j < |DhDfa(t)| ==> DhDfa(t)[i] != DhDfa(t)[j]
  {
    KeptByLookup(t, IsDoubleHybrid, x);
  }

  /** A string longer than s is not a substring of it. */
  lemma {:induction false} TooLongNotSubstring(sub: string, s: string)
    requires |sub| > |s|
    ensures !IsSubstring(sub, s)
    decreases |s|
  {
    if |s| > 0 {
      TooLongNotSubstring(sub, s[1..]);
    }
  }

  /** A string holding a character that s lacks is not a substring of s. */
  lemma {:induction false} ForeignCharNotSubstring(sub: string, s: string, k: nat)
    requires k < |sub| && sub[k] !in s
    ensures !IsSubstring(sub, s)
    decreases |s|
  {
    if |s| > 0 {
      assert forall c :: c in s[1..] ==> c in s;
      ForeignCharNotSubstring(sub, s[1..], k);
    }
  }

  /** Every type the shipped table uses, none of which is a proper substring of
      "doublehybrid". */
  predicate KnownKind(kind: string)
  {
    kind in ["GGA", "mGGA", "global_hybrid", "rsh_hybrid", "doublehybrid",
             "composite_gga", "composite_mGGA", "composite_hybrid"]
  }

  lemma KnownKindSubstring(kind: string)
    requires KnownKind(kind)
    ensures IsSubstring(kind, "doublehybrid") <==> kind == "doublehybrid"
  {
    var dh := "doublehybrid";
    if kind == "doublehybrid" {
      assert kind <= dh;
    } else if kind == "GGA" || kind == "mGGA" {
      assert kind[|kind| - 1] == 'A';
      ForeignCharNotSubstring(kind, dh, |kind| - 1);
    } else if kind == "rsh_hybrid" {
      assert kind[1] == 's';
      ForeignCharNotSubstring(kind, dh, 1);
    } else {
      TooLongNotSubstring(kind, dh);
    }
  }

  /** On a table that uses only the known types, the substring test picks the
      same functionals as the intended tuple test. */
  lemma DhAgreesOnKnownKinds(t: Table)
    requires forall i :: 0 <= i < |t| ==> KnownKind(t[i].1.kind)
    ensures DhDfaAsWritten(t) == DhDfa(t)
  {
    forall i | 0 <= i < |t|
      ensures KindWithinDoubleHybrid(t[i].1) == IsDoubleHybrid(t[i].1)
    {
      KnownKindSubstring(t[i].1.kind);
    }
    KeysWhereAgree(t, KindWithinDoubleHybrid, IsDoubleHybrid);
  }

  /** Two tests that agree on every entry keep the same names. */
  lemma {:induction false} KeysWhereAgree(t: Table, p: Functional -> bool, q: Functional -> bool)
    requires forall i :: 0 <= i < |t| ==> p(t[i].1) == q(t[i].1)
    ensures KeysWhere(t, p) == KeysWhere(t, q)
    decreases |t|
  {
    if |t| > 0 {
      assert forall i :: 0 <= i < |t| - 1 ==> t[1..][i] == t[i + 1];
      KeysWhereAgree(t[1..], p, q);
    }
  }

  /** A functional whose type is "hybrid" would be listed as a double hybrid by
      the substring test, and not by the intended one. */
  lemma DhAsWrittenListsHybrid()
    ensures var t := [("h", Functional(None, None, "d4", ["func"], "hybrid"))];
            DhDfaAsWritten(t) == ["h"] && DhDfa(t) == []
  {
    var s := "doublehybrid";
    assert "hybrid" <= s[6..];
    PrefixOfSuffix("hybrid", s, 6);
  }

  /** A prefix of a suffix is a substring. */
  lemma {:induction false} PrefixOfSuffix(sub: string, s: string, k: nat)
    requires k <= |s| && sub <= s[k..]
    ensures IsSubstring(sub, s)
    decreases k
  {
    if k > 0 {
      assert s[1..][k - 1..] == s[k..];
      PrefixOfSuffix(sub, s[1..], k - 1);
    }
  }

  // ---------------------------------------------------------------------------
  // infos

  /** The parts of a run `infos` answers for. */
  predicate IsPart(request: string)
  {
    request in ["func0", "func", "func3", "func_j", "func_s", "func_or", "func_or_scf"]
  }

  /** Whether the functional may be used for the part in the program: any
      program when `prog` is None, otherwise one whose entry for `prog` is set. */
  predicate Usable(f: Functional, request: string, prog: Option<string>)
  {
    request in f.part
    && (prog.None? || (prog.value == "tm" && f.tm.Some?) || (prog.value == "orca" && f.orca.Some?))
  }

  /** The relay names whose target is in the table and usable. */
  function RelaysWhere(relays: Relays, t: Table, request: string, prog: Option<string>): (r: seq<string>)
    ensures forall x :: x in r <==> exists j :: 0 <= j < |relays| && relays[j].0 == x
                                             && Lookup(t, relays[j].1).Some?
                                             && Usable(Lookup(t, relays[j].1).value, request, prog)
  {
    if |relays| == 0 then []
    else
      var rest := RelaysWhere(relays[1..], t, request, prog);
      assert forall j :: 1 <= j < |relays| ==> relays[1..][j - 1] == relays[j];
      var target := Lookup(t, relays[0].1);
      if target.Some? && Usable(target.value, request, prog) then [relays[0].0] + rest else rest
  }

  /** `infos(request, prog)`: the functionals, and the relay names, usable for
      the part in the program, as a set (`list(set(tmp))`); None when the part
      or the program is not known. */
  function Infos(t: Table, relays: Relays, request: string, prog: Option<string>): Option<set<string>>
  {
    if IsPart(request) && (prog.None? || prog.value == "tm" || prog.value == "orca") then
      var found := KeysWhere(t, (f: Functional) => Usable(f, request, prog)) + RelaysWhere(relays, t, request, prog);
      Some(set x | x in found)
    else None
  }

  /** `infos` answers exactly for the seven parts and for no program, TURBOMOLE
      or ORCA. */
  lemma InfosDefined(t: Table, relays: Relays, request: string, prog: Option<string>)
    ensures Infos(t, relays, request, prog).Some?
            <==> IsPart(request) && (prog.None? || prog.value in {"tm", "orca"})
  {
  }

  /** A name is listed exactly when it is a usable functional or a relay to a
      usable functional of the table. */
  lemma InfosMembers(t: Table, relays: Relays, request: string, prog: Option<string>, x: string)
    requires DistinctKeys(t)
    requires Infos(t, relays, request, prog).Some?
    ensures x in Infos(t, relays, request, prog).value
            <==> (Lookup(t, x).Some? && Usable(Lookup(t, x).value, request, prog))
                 || exists j :: 0 <= j < |relays| && relays[j].0 == x
                                && Lookup(t, relays[j].1).Some?
                                && Usable(Lookup(t, relays[j].1).value, request, prog)
  {
    KeptByLookup(t, (f: Functional) => Usable(f, request, prog), x);
  }

  /** Asking for a program only narrows the answer. */
  lemma InfosProgNarrows(t: Table, relays: Relays, request: string, prog: string)
    requires IsPart(request) && (prog == "tm" || prog == "orca")
    ensures Infos(t, relays, request, Some(prog)).value <= Infos(t, relays, request, None).value
  {
    forall x | x in Infos(t, relays, request, Some(prog)).value
      ensures x in Infos(t, relays, request, None).value
    {
      var usable := KeysWhere(t, (f: Functional) => Usable(f, request, Some(prog)));
      if x in usable {
        var i :| 0 <= i < |t| && t[i].0 == x && Usable(t[i].1, request, Some(prog));
        assert Usable(t[i].1, request, None);
        assert x in KeysWhere(t, (f: Functional) => Usable(f, request, None));
      } else {
        assert x in RelaysWhere(relays, t, request, Some(prog));
        assert x in RelaysWhere(relays, t, request, None);
      }
    }
  }

  /** A name that is no functional of the table, and whose relays lead to no
      usable functional, is never listed; in particular a relay whose target is
      not in the table contributes nothing. */
  lemma UnusableNeverListed(t: Table, relays: Relays, request: string, prog: Option<string>, x: string)
    requires Infos(t, relays, request, prog).Some?
    requires forall i :: 0 <= i < |t| ==> t[i].0 != x
    requires forall j :: 0 <= j < |relays| && relays[j].0 == x ==>
               Lookup(t, relays[j].1).None? || !Usable(Lookup(t, relays[j].1).value, request, prog)
    ensures x !in Infos(t, relays, request, prog).value
  {
    assert x !in KeysWhere(t, (f: Functional) => Usable(f, request, prog));
    assert x !in RelaysWhere(relays, t, request, prog);
  }

  // ---------------------------------------------------------------------------
  // An excerpt of the shipped tables (censo_qm/cfg.py:173-703): every relay
  // target and at least one functional of each type.

  const All := ["func0", "func", "func3", "func_j", "func_s", "func_or", "func_or_scf"]
  const NoOr := ["func0", "func", "func3", "func_j", "func_s"]

  const Functionals: Table := [
    ("pbeh-3c", Functional(Some("pbeh-3c"), Some("pbeh-3c"), "composite", All, "composite_hybrid")),
    ("b97-3c", Functional(Some("b97-3c"), Some("b97-3c"), "composite", All, "composite_gga")),
    ("r2scan-3c", Functional(Some("r2scan-3c"), Some("r2scan-3c"), "composite", All, "composite_mGGA")),
    ("b3lyp-3c", Functional(Some("b3lyp-3c"), Some("b3lyp"), "composite", All, "composite_hybrid")),
    ("pbe-d4", Functional(Some("pbe"), Some("pbe"), "d4", All, "GGA")),
    ("tpss-d4", Functional(Some("tpss"), Some("tpss"), "d4", All, "mGGA")),
    ("b97-d3(0)", Functional(Some("b97-d"), None, "d3(0)", All, "GGA")),
    ("kt1-novdw", Functional(Some("kt1"), None, "novdw", ["func_j", "func_s"], "GGA")),
    ("kt2-novdw", Functional(Some("kt2"), Some("kt2"), "novdw", ["func_j", "func_s"], "GGA")),
    ("pbe0-d4", Functional(Some("pbe0"), Some("pbe0"), "d4", All, "global_hybrid")),
    ("pw6b95-d4", Functional(Some("pw6b95"), Some("pw6b95"), "d4", All, "global_hybrid")),
    ("b3lyp-d4", Functional(Some("b3-lyp"), Some("b3lyp"), "d4", All, "global_hybrid")),
    ("wb97x-v", Functional(Some("wb97x-v"), Some("wb97x-v"), "included", NoOr, "rsh_hybrid")),
    ("wb97x-d3", Functional(None, Some("wb97x-d3"), "included", NoOr, "rsh_hybrid")),
    ("wb97x-d3bj", Functional(None, Some("wb97x-d3bj"), "included", NoOr, "rsh_hybrid")),
    ("wb97m-d4", Functional(None, Some("wb97m-d4"), "included", NoOr, "rsh_hybrid")),
    ("pwpb95-d4", Functional(None, Some("pwpb95"), "d4", ["func3", "func_s"], "doublehybrid")),
    ("dsd-blyp-d3", Functional(None, Some("ri-dsd-blyp"), "d3bj", ["func3", "func_s"], "doublehybrid"))
  ]

  const RelayFunctionals: Relays := [
    ("pbeh-3c", "pbeh-3c"), ("b97-3c", "b97-3c"), ("r2scan-3c", "r2scan-3c"), ("b3lyp-3c", "b3lyp-3c"),
    ("pbe", "pbe-d4"), ("tpss", "tpss-d4"), ("b97-d", "b97-d3(0)"), ("kt1", "kt1-novdw"),
    ("kt2", "kt2-novdw"), ("pbe0", "pbe0-d4"), ("pw6b95", "pw6b95-d4"), ("b3lyp", "b3lyp-d4"),
    ("b3-lyp", "b3lyp-d4"), ("wb97x-v", "wb97x-v"), ("wb97x-d3", "wb97x-d3"), ("wb97x-d3bj", "wb97x-d3bj"),
    ("dsd-blyp", "dsd-blyp-d3"), ("wb97m-V", "wb97m-V"), ("wb97m-d4", "wb97m-d4")
  ]

  /** On the shipped table the substring test of `dh_dfa` does no harm. */
  lemma ShippedDhAgrees()
    ensures DhDfaAsWritten(Functionals) == DhDfa(Functionals)
  {
    DhAgreesOnKnownKinds(Functionals);
  }

  /** "b97-d" relays to "b97-d3(0)", which has TURBOMOLE's name and no ORCA
      name. */
  lemma B97dEntry()
    ensures RelayFunctionals[6].0 == "b97-d"
    ensures Lookup(Functionals, RelayFunctionals[6].1) == Some(Functionals[6].1)
    ensures "func" in Functionals[6].1.part && Functionals[6].1.tm.Some? && Functionals[6].1.orca.None?
  {
    ShippedKeysDistinct();
    assert Functionals[6].0 == RelayFunctionals[6].1;
  }

  /** "b97-d" is offered for a part when no program is named. */
  lemma B97dOffered()
    ensures "b97-d" in Infos(Functionals, RelayFunctionals, "func", None).value
  {
    B97dEntry();
    assert "b97-d" in RelaysWhere(RelayFunctionals, Functionals, "func", None);
  }

  /** ORCA lacks the functional "b97-d" relays to, so it is not offered for
      ORCA. */
  lemma B97dNotForOrca()
    ensures "b97-d" !in Infos(Functionals, RelayFunctionals, "func", Some("orca")).value
  {
    B97dEntry();
    OnlyOneB97d();
    UnusableNeverListed(Functionals, RelayFunctionals, "func", Some("orca"), "b97-d");
  }

  /** The relay "wb97m-V" names a target the table lacks (its functional is
      spelled "wb97m-v"), so it is never offered. */
  lemma Wb97mVNeverListed(request: string, prog: Option<string>)
    requires Infos(Functionals, RelayFunctionals, request, prog).Some?
    ensures "wb97m-V" !in Infos(Functionals, RelayFunctionals, request, prog).value
  {
    NotInShipped("wb97m-V");
    OnlyOneWb97mV();
    NotInShipped(RelayFunctionals[17].1);
    UnusableNeverListed(Functionals, RelayFunctionals, request, prog, "wb97m-V");
  }

  lemma OnlyOneWb97mV()
    ensures RelayFunctionals[17] == ("wb97m-V", "wb97m-V")
    ensures forall j :: 0 <= j < |RelayFunctionals| && RelayFunctionals[j].0 == "wb97m-V" ==> j == 17
  {
  }

  lemma NotInShipped(x: string)
    requires x == "wb97m-V"
    ensures forall i :: 0 <= i < |Functionals| ==> Functionals[i].0 != x
  {
  }

  lemma ShippedKeysDistinct()
    ensures DistinctKeys(Functionals)
  {
  }

  /** "b97-d" is not a functional of the table, and only one relay carries
      that name. */
  lemma OnlyOneB97d()
    ensures forall i :: 0 <= i < |Functionals| ==> Functionals[i].0 != "b97-d"
    ensures forall j :: 0 <= j < |RelayFunctionals| && RelayFunctionals[j].0 == "b97-d" ==> j == 6
  {
  }
}
