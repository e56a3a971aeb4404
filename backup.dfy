/** Backup rotation in censo_qm/utilities.py: `move_recursively(path, filename)`
    renames every file `<p>.<k>` whose name contains `filename + "."` and whose
    last suffix is an integer to `<p>.<k+1>`, highest suffix first, and then
    renames a bare `filename` to `filename.1`; `splitting` is its sort key.
    A directory is the map from its regular files' names to their contents. */
module Backup {
  import opened Builtins
  import opened Sorting

  /** `splitting(item)`: `int(item.rsplit(".", 1)[1])`, 0 when that is not an
      integer; a name without '.' has no second part and raises IndexError. */
  function Splitting(item: string): (r: Result<int>)
    ensures r.Err? <==> FindLast(item, '.').None?
    ensures r.Err? ==> r.error == IndexError
  {
    match FindLast(item, '.')
    case None => Err(IndexError)
    case Some(k) =>
      match ParseInt(item[k + 1..])
      case None => Ok(0)
      case Some(v) => Ok(v)
  }

  /** The sort key as `move_recursively` uses it: every name it sorts has a '.'. */
  function SplitKey(item: string): int
  {
    match Splitting(item)
    case Ok(v) => v
    case Err(_) => 0
  }

  /** The integer after the last '.', when there is one: the names that are
      renamed. */
  function Suffix(item: string): (r: Option<int>)
    ensures r.Some? ==> SplitKey(item) == r.value
  {
    match FindLast(item, '.')
    case None => None
    case Some(k) => ParseInt(item[k + 1..])
  }

  /** `data[0]` of `item.rsplit(".", 1)`: the part before the last '.'. */
  function Prefix(item: string): string
  {
    match FindLast(item, '.')
    case None => item
    case Some(k) => item[..k]
  }

  /** The new name `data[0] + "." + str(int(data[1]) + 1)`. */
  function Bumped(item: string): string
    requires Suffix(item).Some?
  {
    Prefix(item) + "." + IntToString(Suffix(item).value + 1)
  }

  /** `filename + "." in item`: a substring test, not a prefix test. */
  predicate Matched(filename: string, item: string)
  {
    IsSubstring(filename + ".", item)
  }

  /** The names of the listing that contain `filename + "."`, in listing order. */
  function MatchedNames(listing: seq<string>, filename: string): (r: seq<string>)
  {
    if |listing| == 0 then []
    else
      var init := listing[..|listing| - 1];
      var last := listing[|listing| - 1];
      assert listing == init + [last];
      MatchedNames(init, filename) + (if Matched(filename, last) then [last] else [])
  }

  /** The matched names are a sub-multiset of the listing. */
  lemma {:induction false} MatchedNamesSub(listing: seq<string>, filename: string)
    ensures multiset(MatchedNames(listing, filename)) <= multiset(listing)
  {
    if |listing| > 0 {
      var init := listing[..|listing| - 1];
      assert listing == init + [listing[|listing| - 1]];
      MatchedNamesSub(init, filename);
    }
  }

  /** The matched names are exactly the listed names containing `filename + "."`. */
  lemma {:induction false} MatchedNamesMembers(listing: seq<string>, filename: string)
    ensures forall x :: x in MatchedNames(listing, filename) <==> x in listing && Matched(filename, x)
  {
    if |listing| > 0 {
      var init := listing[..|listing| - 1];
      assert listing == init + [listing[|listing| - 1]];
      MatchedNamesMembers(init, filename);
    }
  }

  /** `newfiles.sort(key=splitting, reverse=True)`: a stable sort, highest suffix
      first, names with equal keys kept in their order. */
  function ByKeyDesc(names: seq<string>): (r: seq<string>)
    ensures multiset(r) == multiset(names)
    ensures forall i, j :: 0 <= i < j < |r| ==> SplitKey(r[i]) >= SplitKey(r[j])
  {
    var r := SortBy(names, (n: string) => -(SplitKey(n) as real));
    assert forall i, j :: 0 <= i < j < |r| ==> -(SplitKey(r[i]) as real) <= -(SplitKey(r[j]) as real);
    r
  }

  /** The names `move_recursively` renames, in the order it renames them. */
  function Order(filename: string, listing: seq<string>): seq<string>
  {
    ByKeyDesc(MatchedNames(listing, filename))
  }

  /** `shutil.move(source, target)` inside one directory: the target, if it
      exists, is replaced. */
  function Rename(files: map<string, seq<string>>, source: string, target: string)
    : map<string, seq<string>>
  {
    if source in files then (files - {source})[target := files[source]] else files
  }

  /** One pass of the loop: names whose suffix is not an integer are skipped. */
  function RenameOne(files: map<string, seq<string>>, item: string): map<string, seq<string>>
  {
    if Suffix(item).Some? then Rename(files, item, Bumped(item)) else files
  }

  /** The loop of `move_recursively` over the names in order. */
  function RenameAll(files: map<string, seq<string>>, order: seq<string>): map<string, seq<string>>
  {
    if |order| == 0 then files
    else RenameOne(RenameAll(files, order[..|order| - 1]), order[|order| - 1])
  }

  /** The directory after `move_recursively(path, filename)`, given the order in
      which `os.listdir` lists its files. */
  function MoveSpec(files: map<string, seq<string>>, filename: string, listing: seq<string>)
    : map<string, seq<string>>
  {
    var renamed := RenameAll(files, Order(filename, listing));
    if filename in listing then Rename(renamed, filename, filename + ".1") else renamed
  }

  /** A directory: its regular files by name. */
  class Folder {
    var files: map<string, seq<string>>
  }

  /** `move_recursively(path, filename)`; `listing` is what `os.listdir` returns
      for the folder's files. */
  method MoveRecursively(folder: Folder, filename: string, listing: seq<string>)
    modifies folder
    ensures folder.files == MoveSpec(old(folder.files), filename, listing)
  {
    var newfiles := MatchingNames(listing, filename);
    var order := ByKeyDesc(newfiles);
    RenameInOrder(folder, order);
    if filename in listing && filename in folder.files {
      folder.files := (folder.files - {filename})[filename + ".1" := folder.files[filename]];
    }
  }

  /** The first loop of `move_recursively`: the listed names containing
      `filename + "."`. */
  method MatchingNames(listing: seq<string>, filename: string) returns (newfiles: seq<string>)
    ensures newfiles == MatchedNames(listing, filename)
  {
    newfiles := [];
    for i := 0 to |listing|
      invariant newfiles == MatchedNames(listing[..i], filename)
    {
      assert listing[..i + 1][..i] == listing[..i];
      if IsSubstring(filename + ".", listing[i]) {
        newfiles := newfiles + [listing[i]];
      }
    }
    assert listing[..|listing|] == listing;
  }

  /** The second loop of `move_recursively`: each name with an integer suffix is
      moved to the next suffix, the others are skipped. */
  method RenameInOrder(folder: Folder, order: seq<string>)
    modifies folder
    ensures folder.files == RenameAll(old(folder.files), order)
  {
    for i := 0 to |order|
      invariant folder.files == RenameAll(old(folder.files), order[..i])
    {
      assert order[..i + 1][..i] == order[..i];
      var item := order[i];
      match FindLast(item, '.')
      case None =>
      case Some(k) =>
        match ParseInt(item[k + 1..])
        case None =>
        case Some(v) =>
          var newfilename := item[..k] + "." + IntToString(v + 1);
          if item in folder.files {
            folder.files := (folder.files - {item})[newfilename := folder.files[item]];
          }
    }
    assert order[..|order|] == order;
  }

  // ---------------------------------------------------------------------------
  // String facts

  lemma NoDotInInt(k: int)
    ensures '.' !in IntToString(k)
  {
    var s := NatToString(if k < 0 then -k else k);
    assert forall i :: 0 <= i < |s| ==> IsDigit(s[i]);
  }

  /** The position of the last c is the one with no c after it. */
  lemma LastAt(s: string, c: char, i: nat)
    requires i < |s| && s[i] == c
    requires forall k :: i < k < |s| ==> s[k] != c
    ensures FindLast(s, c) == Some(i)
  {
  }

  /** The last '.' of `p + "." + d` is the one added, when d has none. */
  lemma LastDot(p: string, d: string)
    requires '.' !in d
    ensures FindLast(p + "." + d, '.') == Some(|p|)
    ensures (p + "." + d)[..|p|] == p && (p + "." + d)[|p| + 1..] == d
  {
    var s := p + "." + d;
    assert s[..|p|] == p;
    assert s[|p| + 1..] == d;
    assert s[|p|] == '.';
    forall k | |p| < k < |s|
      ensures s[k] != '.'
    {
      assert s[k] == d[k - |p| - 1];
    }
    LastAt(s, '.', |p|);
  }

  /** A renamed file's name has the old prefix and the next integer suffix. */
  lemma BumpedName(item: string)
    requires Suffix(item).Some?
    ensures Prefix(Bumped(item)) == Prefix(item)
    ensures Suffix(Bumped(item)) == Some(Suffix(item).value + 1)
  {
    var v := Suffix(item).value;
    NoDotInInt(v + 1);
    LastDot(Prefix(item), IntToString(v + 1));
    ParseIntOfString(v + 1);
  }

  /** `sub` occurs in `s` at position p. */
  predicate OccursAt(sub: string, s: string, p: int)
  {
    0 <= p && p + |sub| <= |s| && s[p..p + |sub|] == sub
  }

  /** `IsSubstring` as an occurrence at some position. */
  lemma {:induction false} SubstringAt(sub: string, s: string)
    ensures IsSubstring(sub, s) <==> exists p :: OccursAt(sub, s, p)
    decreases |s|
  {
    if sub <= s {
      assert s[0..|sub|] == sub;
      assert OccursAt(sub, s, 0);
    }
    if |s| > 0 {
      SubstringAt(sub, s[1..]);
      if IsSubstring(sub, s[1..]) {
        var p :| OccursAt(sub, s[1..], p);
        assert s[p + 1..p + 1 + |sub|] == s[1..][p..p + |sub|];
        assert OccursAt(sub, s, p + 1);
      }
    }
    if exists p :: OccursAt(sub, s, p) {
      var p :| OccursAt(sub, s, p);
      if p == 0 {
        assert sub <= s;
      } else {
        assert s[1..][p - 1..p - 1 + |sub|] == s[p..p + |sub|];
        assert OccursAt(sub, s[1..], p - 1);
      }
    }
  }

  /** A name with a matching occurrence keeps it when its suffix is replaced. */
  lemma MatchedBumped(filename: string, item: string)
    requires Matched(filename, item) && Suffix(item).Some?
    ensures Matched(filename, Bumped(item))
  {
    var sub := filename + ".";
    SubstringAt(sub, item);
    var p :| OccursAt(sub, item, p);
    var k := FindLast(item, '.').value;
    OccursBeforeLastDot(sub, item, p, k, IntToString(Suffix(item).value + 1));
    SubstringAt(sub, Bumped(item));
  }

  /** An occurrence of a text ending in '.' lies before or at the last '.', so
      it survives replacing what follows that '.'. */
  lemma OccursBeforeLastDot(sub: string, item: string, p: int, k: nat, d: string)
    requires |sub| > 0 && sub[|sub| - 1] == '.' && OccursAt(sub, item, p)
    requires k < |item| && item[k] == '.'
    requires forall j :: k < j < |item| ==> item[j] != '.'
    ensures OccursAt(sub, item[..k] + "." + d, p)
  {
    var t := item[..k] + "." + d;
    var q := p + |sub| - 1;
    assert item[q] == sub[|sub| - 1];
    assert q <= k;
    if q == k {
      assert t[p..p + |sub|] == item[p..k] + ".";
      assert item[p..k] + "." == item[p..p + |sub|];
    } else {
      assert t[p..p + |sub|] == item[p..p + |sub|];
    }
  }

  /** The bare name does not contain `filename + "."`. */
  lemma BareNotMatched(filename: string)
    ensures !Matched(filename, filename)
  {
    SubstringAt(filename + ".", filename);
  }

  // ---------------------------------------------------------------------------
  // What the loop does

  predicate Distinct(s: seq<string>)
  {
    forall i, j :: 0 <= i < j < |s| ==> s[i] != s[j]
  }

  /** The conditions a renaming order satisfies: distinct names of the directory,
      highest key first. */
  predicate GoodOrder(files: map<string, seq<string>>, order: seq<string>)
  {
    Distinct(order)
    && (forall i :: 0 <= i < |order| ==> order[i] in files)
    && (forall i, j :: 0 <= i < j < |order| ==> SplitKey(order[i]) >= SplitKey(order[j]))
  }

  /** No rename ever targets a name that is still waiting in the order: every
      name is still there, untouched, when its turn comes. */
  lemma {:induction false} Untouched(files: map<string, seq<string>>, order: seq<string>, i: nat)
    requires GoodOrder(files, order) && i <= |order|
    ensures forall k :: i <= k < |order| ==>
      order[k] in RenameAll(files, order[..i]) && RenameAll(files, order[..i])[order[k]] == files[order[k]]
  {
    if i > 0 {
      Untouched(files, order, i - 1);
      var prev := RenameAll(files, order[..i - 1]);
      var item := order[i - 1];
      assert order[..i][..i - 1] == order[..i - 1];
      assert RenameAll(files, order[..i]) == RenameOne(prev, item);
      forall k | i <= k < |order|
        ensures order[k] in RenameOne(prev, item) && RenameOne(prev, item)[order[k]] == files[order[k]]
      {
        StillThere(files, order, i - 1, prev, k);
      }
    }
  }

  /** The rename of order[j] leaves a later name of the order in place. */
  lemma StillThere(files: map<string, seq<string>>, order: seq<string>, j: nat,
                   prev: map<string, seq<string>>, k: nat)
    requires GoodOrder(files, order) && j < k < |order|
    requires order[k] in prev && prev[order[k]] == files[order[k]]
    ensures order[k] in RenameOne(prev, order[j]) && RenameOne(prev, order[j])[order[k]] == files[order[k]]
  {
    var item := order[j];
    if Suffix(item).Some? {
      BumpedName(item);
      HigherKeyNotAhead(order, j, Bumped(item));
      RenameKeeps(prev, item, Bumped(item), order[k]);
    }
  }

  /** The source of every rename exists when it is moved, so the `shutil.move`
      calls of the loop never miss their source. */
  lemma SourcesPresent(files: map<string, seq<string>>, order: seq<string>, i: nat)
    requires GoodOrder(files, order) && i < |order|
    ensures order[i] in RenameAll(files, order[..i])
  {
    Untouched(files, order, i);
  }

  // ---------------------------------------------------------------------------
  // Collision freedom

  /** A suffix written the way `str(int)` writes it. */
  predicate CanonicalName(item: string)
  {
    Suffix(item).Some? ==> item == Prefix(item) + "." + IntToString(Suffix(item).value)
  }

  /** Where a name ends up after `move_recursively`. */
  function NewName(filename: string, n: string): string
  {
    if n == filename then filename + ".1"
    else if Matched(filename, n) && Suffix(n).Some? then Bumped(n)
    else n
  }

  /** Two renamed names with canonical suffixes are bumped to the same name only
      when they are the same name. */
  lemma BumpedInjective(a: string, b: string)
    requires Suffix(a).Some? && Suffix(b).Some? && CanonicalName(a) && CanonicalName(b)
    requires Bumped(a) == Bumped(b)
    ensures a == b
  {
    BumpedName(a);
    BumpedName(b);
  }

  /** The directory and order `move_recursively` works with: the order holds
      exactly the matched names of the directory, every integer suffix is
      written canonically, and there is no `filename.0`. */
  predicate Rotatable(files: map<string, seq<string>>, filename: string, order: seq<string>)
  {
    GoodOrder(files, order)
    && (forall i :: 0 <= i < |order| ==> Matched(filename, order[i]) && CanonicalName(order[i]))
    && (forall n :: n in files && Matched(filename, n) ==> n in order)
    && filename + ".0" !in files
  }

  /** A name the first i renames leave in place: not renamed yet, or skipped. */
  predicate Kept(order: seq<string>, i: nat, n: string)
    requires i <= |order|
  {
    n !in order[..i] || Suffix(n).None?
  }

  /** The names the first i renames moved files to. */
  function Targets(order: seq<string>, i: nat): set<string>
    requires i <= |order|
  {
    if i == 0 then {}
    else Targets(order, i - 1) + (if Suffix(order[i - 1]).Some? then {Bumped(order[i - 1])} else {})
  }

  lemma {:induction false} TargetSource(order: seq<string>, i: nat, n: string)
    requires i <= |order| && n in Targets(order, i)
    ensures exists k :: 0 <= k < i && Suffix(order[k]).Some? && n == Bumped(order[k])
  {
    if n !in Targets(order, i - 1) {
      assert n == Bumped(order[i - 1]);
    } else {
      TargetSource(order, i - 1, n);
    }
  }

  /** After the first i renames every renamed file sits under its new name. */
  predicate MovedAhead(files: map<string, seq<string>>, order: seq<string>, i: nat,
                       state: map<string, seq<string>>)
    requires i <= |order|
    requires forall k :: 0 <= k < |order| ==> order[k] in files
  {
    forall k :: 0 <= k < i && Suffix(order[k]).Some? ==>
      Bumped(order[k]) in state && state[Bumped(order[k])] == files[order[k]]
  }

  /** After the first i renames every kept file is where it was. */
  predicate InPlace(files: map<string, seq<string>>, order: seq<string>, i: nat,
                    state: map<string, seq<string>>)
    requires i <= |order|
  {
    forall n :: n in files && Kept(order, i, n) ==> n in state && state[n] == files[n]
  }

  /** After the first i renames there is no other name. */
  predicate NothingElse(files: map<string, seq<string>>, order: seq<string>, i: nat,
                        state: map<string, seq<string>>)
    requires i <= |order|
  {
    forall n :: n in state ==> (n in files && Kept(order, i, n)) || n in Targets(order, i)
  }

  predicate RotatedUpTo(files: map<string, seq<string>>, order: seq<string>, i: nat,
                        state: map<string, seq<string>>)
    requires i <= |order|
    requires forall k :: 0 <= k < |order| ==> order[k] in files
  {
    MovedAhead(files, order, i, state) && InPlace(files, order, i, state)
    && NothingElse(files, order, i, state)
  }

  /** The rename of the next name never hits an existing name. */
  lemma TargetFree(files: map<string, seq<string>>, filename: string,
                   order: seq<string>, i: nat, state: map<string, seq<string>>)
    requires Rotatable(files, filename, order) && i < |order|
    requires NothingElse(files, order, i, state)
    requires Suffix(order[i]).Some?
    ensures Bumped(order[i]) !in state
  {
    BumpedNotKept(files, filename, order, i);
    BumpedNotTarget(files, filename, order, i);
  }

  /** The next target is not a name of the directory that is still in place. */
  lemma BumpedNotKept(files: map<string, seq<string>>, filename: string, order: seq<string>, i: nat)
    requires Rotatable(files, filename, order) && i < |order| && Suffix(order[i]).Some?
    ensures !(Bumped(order[i]) in files && Kept(order, i, Bumped(order[i])))
  {
    var item := order[i];
    var t := Bumped(item);
    BumpedName(item);
    if t in files {
      MatchedBumped(filename, item);
      HigherKeyNotAhead(order, i, t);
      var k :| 0 <= k < |order| && order[k] == t;
      assert order[..i][k] == t;
    }
  }

  /** A name whose key exceeds that of order[i] is not at or after i. */
  lemma HigherKeyNotAhead(order: seq<string>, i: nat, t: string)
    requires i < |order|
    requires forall a, b :: 0 <= a < b < |order| ==> SplitKey(order[a]) >= SplitKey(order[b])
    requires SplitKey(t) > SplitKey(order[i])
    ensures forall k :: i <= k < |order| ==> order[k] != t
  {
    forall k | i <= k < |order|
      ensures order[k] != t
    {
      assert SplitKey(order[i]) >= SplitKey(order[k]);
    }
  }

  /** The next target is not a name an earlier rename moved a file to. */
  lemma BumpedNotTarget(files: map<string, seq<string>>, filename: string, order: seq<string>, i: nat)
    requires Rotatable(files, filename, order) && i < |order| && Suffix(order[i]).Some?
    ensures Bumped(order[i]) !in Targets(order, i)
  {
    var item := order[i];
    var t := Bumped(item);
    if t in Targets(order, i) {
      TargetSource(order, i, t);
      var k :| 0 <= k < i && Suffix(order[k]).Some? && t == Bumped(order[k]);
      BumpedInjective(order[k], item);
      assert false;
    }
  }

  lemma {:induction false} Rotated(files: map<string, seq<string>>, filename: string,
                                   order: seq<string>, i: nat)
    requires Rotatable(files, filename, order) && i <= |order|
    ensures RotatedUpTo(files, order, i, RenameAll(files, order[..i]))
  {
    if i > 0 {
      Rotated(files, filename, order, i - 1);
      assert order[..i][..i - 1] == order[..i - 1];
      var prev := RenameAll(files, order[..i - 1]);
      Untouched(files, order, i - 1);
      assert RenameAll(files, order[..i]) == RenameOne(prev, order[i - 1]);
      RotatedStep(files, filename, order, i - 1, prev);
    }
  }

  /** One pass of the loop keeps the rotation invariant. */
  lemma RotatedStep(files: map<string, seq<string>>, filename: string, order: seq<string>,
                    j: nat, prev: map<string, seq<string>>)
    requires Rotatable(files, filename, order) && j < |order|
    requires RotatedUpTo(files, order, j, prev)
    requires order[j] in prev && prev[order[j]] == files[order[j]]
    ensures RotatedUpTo(files, order, j + 1, RenameOne(prev, order[j]))
  {
    var item := order[j];
    if Suffix(item).Some? {
      TargetFree(files, filename, order, j, prev);
      StepMovedAhead(files, order, j, prev);
      StepInPlace(files, order, j, prev);
      StepNothingElse(files, order, j, prev);
    } else {
      SkipStep(files, order, j, prev);
    }
  }

  lemma StepMovedAhead(files: map<string, seq<string>>, order: seq<string>, i: nat,
                       prev: map<string, seq<string>>)
    requires GoodOrder(files, order) && i < |order| && Suffix(order[i]).Some?
    requires MovedAhead(files, order, i, prev)
    requires order[i] in prev && prev[order[i]] == files[order[i]]
    requires Bumped(order[i]) !in prev
    ensures MovedAhead(files, order, i + 1, Rename(prev, order[i], Bumped(order[i])))
  {
    var item := order[i];
    var next := Rename(prev, item, Bumped(item));
    forall k | 0 <= k < i + 1 && Suffix(order[k]).Some?
      ensures Bumped(order[k]) in next && next[Bumped(order[k])] == files[order[k]]
    {
      if k < i {
        EarlierStaysMoved(files, order, i, prev, k);
      }
    }
  }

  /** The rename of order[i] leaves an earlier renamed file where it went. */
  lemma EarlierStaysMoved(files: map<string, seq<string>>, order: seq<string>, i: nat,
                          prev: map<string, seq<string>>, k: nat)
    requires GoodOrder(files, order) && k < i < |order|
    requires Suffix(order[i]).Some? && Suffix(order[k]).Some?
    requires Bumped(order[k]) in prev && prev[Bumped(order[k])] == files[order[k]]
    requires Bumped(order[i]) !in prev
    ensures var next := Rename(prev, order[i], Bumped(order[i]));
            Bumped(order[k]) in next && next[Bumped(order[k])] == files[order[k]]
  {
    var t := Bumped(order[k]);
    BumpedName(order[k]);
    HigherKeyNotAhead(order, i, t);
    RenameKeeps(prev, order[i], Bumped(order[i]), t);
  }

  lemma StepInPlace(files: map<string, seq<string>>, order: seq<string>, i: nat,
                    prev: map<string, seq<string>>)
    requires i < |order| && Suffix(order[i]).Some?
    requires InPlace(files, order, i, prev)
    requires Bumped(order[i]) !in prev
    ensures InPlace(files, order, i + 1, Rename(prev, order[i], Bumped(order[i])))
  {
    assert order[..i + 1] == order[..i] + [order[i]];
  }

  lemma StepNothingElse(files: map<string, seq<string>>, order: seq<string>, i: nat,
                        prev: map<string, seq<string>>)
    requires i < |order| && Suffix(order[i]).Some?
    requires NothingElse(files, order, i, prev)
    ensures NothingElse(files, order, i + 1, Rename(prev, order[i], Bumped(order[i])))
  {
    assert order[..i + 1] == order[..i] + [order[i]];
  }

  /** A skipped name changes nothing. */
  lemma SkipStep(files: map<string, seq<string>>, order: seq<string>, i: nat,
                 prev: map<string, seq<string>>)
    requires GoodOrder(files, order) && i < |order| && Suffix(order[i]).None?
    requires RotatedUpTo(files, order, i, prev)
    ensures RotatedUpTo(files, order, i + 1, prev)
  {
    SkipKept(order, i);
    assert Targets(order, i + 1) == Targets(order, i);
    assert MovedAhead(files, order, i + 1, prev);
    assert InPlace(files, order, i + 1, prev);
  }

  lemma SkipKept(order: seq<string>, i: nat)
    requires i < |order| && Suffix(order[i]).None?
    ensures forall n :: Kept(order, i + 1, n) <==> Kept(order, i, n)
  {
    assert order[..i + 1] == order[..i] + [order[i]];
  }

  /** With canonical suffixes and no `filename.0`, `move_recursively` loses
      nothing: each file of the directory ends up under its new name with its
      contents, and no two files end up under the same name. */
  lemma MoveKeepsEverything(files: map<string, seq<string>>, filename: string, listing: seq<string>)
    requires forall n :: n in listing <==> n in files
    requires Distinct(listing)
    requires forall n :: n in files && Matched(filename, n) ==> CanonicalName(n)
    requires filename + ".0" !in files
    ensures var r := MoveSpec(files, filename, listing);
            (forall n :: n in files ==> NewName(filename, n) in r && r[NewName(filename, n)] == files[n])
            && (forall n :: n in r ==> exists m :: m in files && n == NewName(filename, m))
  {
    var order := Order(filename, listing);
    OrderIsGood(files, filename, listing);
    Rotated(files, filename, order, |order|);
    assert order[..|order|] == order;
    var s := RenameAll(files, order);
    var r := MoveSpec(files, filename, listing);
    forall n | n in files
      ensures NewName(filename, n) in r && r[NewName(filename, n)] == files[n]
    {
      FinalName(files, filename, order, s, n);
    }
    forall n | n in r
      ensures exists m :: m in files && n == NewName(filename, m)
    {
      FinalSource(files, filename, order, s, n);
    }
  }

  /** The sorted matched names of a full listing form a good order. */
  lemma OrderIsGood(files: map<string, seq<string>>, filename: string, listing: seq<string>)
    requires forall n :: n in listing <==> n in files
    requires Distinct(listing)
    requires forall n :: n in files && Matched(filename, n) ==> CanonicalName(n)
    requires filename + ".0" !in files
    ensures Rotatable(files, filename, Order(filename, listing))
  {
    var order := Order(filename, listing);
    var m := MatchedNames(listing, filename);
    MatchedNamesMembers(listing, filename);
    MatchedNamesSub(listing, filename);
    forall x | x in order
      ensures x in m
    {
      assert x in multiset(order);
    }
    forall n | n in files && Matched(filename, n)
      ensures n in order
    {
      assert n in multiset(m);
    }
    DistinctOfMultiset(listing, m, order);
  }

  /** A sequence with the multiset of a sub-multiset of a distinct sequence is
      distinct. */
  lemma DistinctOfMultiset(listing: seq<string>, m: seq<string>, order: seq<string>)
    requires Distinct(listing) && multiset(m) <= multiset(listing) && multiset(order) == multiset(m)
    ensures Distinct(order)
  {
    forall i, j | 0 <= i < j < |order|
      ensures order[i] != order[j]
    {
      if order[i] == order[j] {
        var x := order[i];
        assert multiset{x, x} <= multiset(order) by {
          assert order == order[..i] + [x] + order[i + 1..j] + [x] + order[j + 1..];
        }
        assert multiset(listing)[x] >= 2;
        CountAtMostOne(listing, x);
      }
    }
  }

  lemma {:induction false} CountAtMostOne(s: seq<string>, x: string)
    requires Distinct(s)
    ensures multiset(s)[x] <= 1
  {
    if |s| > 0 {
      var init := s[..|s| - 1];
      assert s == init + [s[|s| - 1]];
      CountAtMostOne(init, x);
      if s[|s| - 1] == x {
        assert x !in init;
      }
    }
  }

  /** `filename.1` is a matched name with integer suffix 1. */
  lemma OneSuffix(filename: string)
    ensures Matched(filename, filename + ".1")
    ensures Suffix(filename + ".1") == Some(1) && Prefix(filename + ".1") == filename
  {
    var f := filename + ".1";
    assert f[0..|filename + "."|] == filename + ".";
    assert OccursAt(filename + ".", f, 0);
    SubstringAt(filename + ".", f);
    LastDot(filename, "1");
    assert f == filename + "." + "1";
  }

  /** No rename targets `filename.1`: only `filename.0` would. */
  lemma NotOne(files: map<string, seq<string>>, filename: string, order: seq<string>, k: nat)
    requires Rotatable(files, filename, order) && k < |order| && Suffix(order[k]).Some?
    ensures Bumped(order[k]) != filename + ".1"
  {
    var item := order[k];
    if Bumped(item) == filename + ".1" {
      BumpedToOne(filename, item);
    }
  }

  /** Only `filename.0` is renamed to `filename.1`. */
  lemma BumpedToOne(filename: string, n: string)
    requires Suffix(n).Some? && CanonicalName(n) && Bumped(n) == filename + ".1"
    ensures n == filename + ".0"
  {
    OneSuffix(filename);
    BumpedName(n);
    assert Suffix(n).value == 0 && Prefix(n) == filename;
    assert IntToString(0) == "0";
  }

  /** The bare name after the last rename. */
  function Final(files: map<string, seq<string>>, filename: string, s: map<string, seq<string>>)
    : map<string, seq<string>>
  {
    if filename in files then Rename(s, filename, filename + ".1") else s
  }

  /** Where a file of the directory ends up. */
  lemma FinalName(files: map<string, seq<string>>, filename: string, order: seq<string>,
                  s: map<string, seq<string>>, n: string)
    requires Rotatable(files, filename, order)
    requires RotatedUpTo(files, order, |order|, s)
    requires n in files
    ensures NewName(filename, n) in Final(files, filename, s)
    ensures Final(files, filename, s)[NewName(filename, n)] == files[n]
  {
    assert order[..|order|] == order;
    BareNotMatched(filename);
    if filename in files {
      assert filename !in order;
      assert Kept(order, |order|, filename);
    }
    if n == filename {
      OneFree(files, filename, order, s);
    } else if Matched(filename, n) && Suffix(n).Some? {
      FinalMoved(files, filename, order, s, n);
    } else {
      FinalKept(files, filename, order, s, n);
    }
  }

  lemma FinalMoved(files: map<string, seq<string>>, filename: string, order: seq<string>,
                   s: map<string, seq<string>>, n: string)
    requires Rotatable(files, filename, order)
    requires MovedAhead(files, order, |order|, s)
    requires n in files && Matched(filename, n) && Suffix(n).Some?
    ensures Bumped(n) in Final(files, filename, s)
    ensures Final(files, filename, s)[Bumped(n)] == files[n]
  {
    var k :| 0 <= k < |order| && order[k] == n;
    var t := Bumped(n);
    assert t in s && s[t] == files[n];
    NotOne(files, filename, order, k);
    MatchedBumped(filename, n);
    BareNotMatched(filename);
    assert t != filename;
    RenameKeeps(s, filename, filename + ".1", t);
  }

  /** A rename leaves every other name as it was. */
  lemma RenameKeeps(s: map<string, seq<string>>, source: string, target: string, n: string)
    requires n in s && n != source && n != target
    ensures n in Rename(s, source, target) && Rename(s, source, target)[n] == s[n]
  {
  }

  lemma FinalKept(files: map<string, seq<string>>, filename: string, order: seq<string>,
                  s: map<string, seq<string>>, n: string)
    requires Rotatable(files, filename, order)
    requires InPlace(files, order, |order|, s)
    requires n in files && n != filename && !(Matched(filename, n) && Suffix(n).Some?)
    ensures n in Final(files, filename, s) && Final(files, filename, s)[n] == files[n]
  {
    assert order[..|order|] == order;
    assert Kept(order, |order|, n);
    OneSuffix(filename);
  }

  /** After the loop, `filename.1` is free. */
  lemma OneFree(files: map<string, seq<string>>, filename: string, order: seq<string>,
                s: map<string, seq<string>>)
    requires Rotatable(files, filename, order)
    requires NothingElse(files, order, |order|, s)
    ensures filename + ".1" !in s
  {
    assert order[..|order|] == order;
    var f := filename + ".1";
    OneSuffix(filename);
    if f in files {
      var k :| 0 <= k < |order| && order[k] == f;
      assert !Kept(order, |order|, f);
    }
    if f in Targets(order, |order|) {
      TargetSource(order, |order|, f);
      var k :| 0 <= k < |order| && Suffix(order[k]).Some? && f == Bumped(order[k]);
      NotOne(files, filename, order, k);
      assert false;
    }
  }

  /** Every name after `move_recursively` is the new name of a file it had. */
  lemma FinalSource(files: map<string, seq<string>>, filename: string, order: seq<string>,
                    s: map<string, seq<string>>, n: string)
    requires Rotatable(files, filename, order)
    requires RotatedUpTo(files, order, |order|, s)
    requires n in Final(files, filename, s)
    ensures exists m :: m in files && n == NewName(filename, m)
  {
    assert order[..|order|] == order;
    OneFree(files, filename, order, s);
    BareNotMatched(filename);
    if filename in files && n == filename + ".1" {
      assert NewName(filename, filename) == n;
    } else if n in Targets(order, |order|) {
      TargetSource(order, |order|, n);
      var k :| 0 <= k < |order| && Suffix(order[k]).Some? && n == Bumped(order[k]);
      assert order[k] != filename;
      assert NewName(filename, order[k]) == n;
    } else {
      assert n in files && Kept(order, |order|, n);
      assert n != filename;
      assert NewName(filename, n) == n;
    }
  }

  /** Different files get different new names. */
  lemma NewNameInjective(files: map<string, seq<string>>, filename: string, n: string, m: string)
    requires forall x :: x in files && Matched(filename, x) ==> CanonicalName(x)
    requires filename + ".0" !in files
    requires n in files && m in files && n != m
    ensures NewName(filename, n) != NewName(filename, m)
  {
    OneSuffix(filename);
    BareNotMatched(filename);
    assert IntToString(0) == "0";
    NotBareTarget(files, filename, n);
    NotBareTarget(files, filename, m);
    if Matched(filename, n) && Suffix(n).Some? && Matched(filename, m) && Suffix(m).Some?
       && Bumped(n) == Bumped(m) {
      BumpedInjective(n, m);
    }
  }

  /** A renamed name is matched, has an integer suffix and is not `filename.1`. */
  lemma NotBareTarget(files: map<string, seq<string>>, filename: string, n: string)
    requires forall x :: x in files && Matched(filename, x) ==> CanonicalName(x)
    requires filename + ".0" !in files
    requires n in files
    ensures Matched(filename, n) && Suffix(n).Some? ==>
      Matched(filename, Bumped(n)) && Suffix(Bumped(n)).Some? && Bumped(n) != filename + ".1"
  {
    if Matched(filename, n) && Suffix(n).Some? {
      BumpedName(n);
      MatchedBumped(filename, n);
      if Bumped(n) == filename + ".1" {
        BumpedToOne(filename, n);
      }
    }
  }

  /** Names with equal keys keep their listing order. */
  lemma EqualKeysInOrder(x: string, y: string)
    requires SplitKey(x) == SplitKey(y)
    ensures ByKeyDesc([x, y]) == [x, y]
  {
    var key := (n: string) => -(SplitKey(n) as real);
    assert [x, y][..1] == [x];
    assert [x][..0] == [];
    assert SortBy([x], key) == [x];
    assert Insert(y, [x], key) == [x, y];
  }

  /** Names with a larger key come first. */
  lemma LargerKeyFirst(x: string, y: string)
    requires SplitKey(x) < SplitKey(y)
    ensures ByKeyDesc([x, y]) == [y, x]
  {
    var key := (n: string) => -(SplitKey(n) as real);
    assert [x, y][..1] == [x];
    assert [x][..0] == [];
    assert SortBy([x], key) == [x];
    assert Insert(y, [x], key) == [y, x];
  }

  lemma RenameAllOne(files: map<string, seq<string>>, x: string)
    ensures RenameAll(files, [x]) == RenameOne(files, x)
  {
    assert [x][..0] == [];
  }

  lemma RenameAllTwo(files: map<string, seq<string>>, x: string, y: string)
    ensures RenameAll(files, [x, y]) == RenameOne(RenameOne(files, x), y)
  {
    assert [x, y][..1] == [x];
    RenameAllOne(files, x);
  }

  lemma MatchedNamesOfTwo(a: string, b: string, f: string)
    ensures MatchedNames([a, b], f) ==
      (if Matched(f, a) then [a] else []) + (if Matched(f, b) then [b] else [])
  {
    MatchedNamesSnoc([], a, f);
    assert [] + [a] == [a];
    MatchedNamesSnoc([a], b, f);
    assert [a] + [b] == [a, b];
  }

  /** One more listed name adds itself when it matches. */
  lemma MatchedNamesSnoc(init: seq<string>, last: string, f: string)
    ensures MatchedNames(init + [last], f)
            == MatchedNames(init, f) + (if Matched(f, last) then [last] else [])
  {
    assert (init + [last])[..|init|] == init;
  }

  lemma MatchedLastTwo(a: string, b: string, c: string, f: string)
    requires !Matched(f, a) && Matched(f, b) && Matched(f, c)
    ensures MatchedNames([a, b, c], f) == [b, c]
  {
    var ab := [a, b];
    assert MatchedNames(ab, f) == [b] by {
      MatchedNamesOfTwo(a, b, f);
    }
    assert ab + [c] == [a, b, c];
    MatchedNamesSnoc(ab, c, f);
  }

  /** The name `f.<d>`. */
  function Numbered(f: string, d: string): string
  {
    f + "." + d
  }

  /** `f.<d>` for a suffix d without '.' that reads as v: matched, with key v,
      moved to `f.<v+1>`. */
  lemma NumberedName(f: string, d: string, v: int)
    requires '.' !in d && ParseInt(d) == Some(v)
    ensures Matched(f, Numbered(f, d))
    ensures Suffix(Numbered(f, d)) == Some(v) && SplitKey(Numbered(f, d)) == v
    ensures Bumped(Numbered(f, d)) == Numbered(f, IntToString(v + 1))
    ensures f != Numbered(f, d)
  {
    var n := f + "." + d;
    assert n[0..|f + "."|] == f + ".";
    assert OccursAt(f + ".", n, 0);
    SubstringAt(f + ".", n);
    LastDot(f, d);
    assert |f| < |n|;
  }

  /** Names `f.<d>` and `f.<e>` differ when d and e do. */
  lemma NumberedDistinct(f: string, d: string, e: string)
    requires d != e
    ensures Numbered(f, d) != Numbered(f, e)
  {
    assert (f + "." + d)[|f| + 1..] == d && (f + "." + e)[|f| + 1..] == e;
  }

  lemma LeadingZeroOrder(f: string)
    ensures Order(f, [Numbered(f, "2"), Numbered(f, "02")]) == [Numbered(f, "2"), Numbered(f, "02")]
  {
    var two, zeroTwo := Numbered(f, "2"), Numbered(f, "02");
    assert ParseInt("2") == Some(2) && ParseInt("02") == Some(2);
    NumberedName(f, "2", 2);
    NumberedName(f, "02", 2);
    MatchedNamesOfTwo(two, zeroTwo, f);
    EqualKeysInOrder(two, zeroTwo);
  }

  lemma LeadingZeroNames(f: string)
    ensures var two, zeroTwo, three := Numbered(f, "2"), Numbered(f, "02"), Numbered(f, "3");
            Suffix(two).Some? && Suffix(zeroTwo).Some?
            && Bumped(two) == three && Bumped(zeroTwo) == three
            && two != zeroTwo && two != three && zeroTwo != three
            && f !in [two, zeroTwo]
  {
    assert ParseInt("2") == Some(2) && ParseInt("02") == Some(2) && IntToString(3) == "3";
    NumberedName(f, "2", 2);
    NumberedName(f, "02", 2);
    NumberedDistinct(f, "2", "02");
    NumberedDistinct(f, "2", "3");
    NumberedDistinct(f, "02", "3");
  }

  /** The loop over two names, both with integer suffixes, and no bare file. */
  lemma MoveTwo(files: map<string, seq<string>>, f: string, x: string, y: string)
    requires Order(f, [x, y]) == [x, y] && f !in [x, y]
    requires Suffix(x).Some? && Suffix(y).Some?
    ensures MoveSpec(files, f, [x, y]) == Rename(Rename(files, x, Bumped(x)), y, Bumped(y))
  {
    MoveSpecOf(files, f, [x, y], [x, y]);
    RenameAllTwo(files, x, y);
  }

  /** A suffix with a leading zero collides: `f.2` and `f.02` both move to
      `f.3`, and the contents of `f.2` are lost. */
  lemma LeadingZeroCollision(f: string, a: seq<string>, b: seq<string>)
    ensures var two, zeroTwo := Numbered(f, "2"), Numbered(f, "02");
            MoveSpec(map[two := a, zeroTwo := b], f, [two, zeroTwo]) == map[Numbered(f, "3") := b]
  {
    var two, zeroTwo, three := Numbered(f, "2"), Numbered(f, "02"), Numbered(f, "3");
    LeadingZeroOrder(f);
    LeadingZeroNames(f);
    MoveTwo(map[two := a, zeroTwo := b], f, two, zeroTwo);
    RenamedOntoOne(two, zeroTwo, three, a, b);
  }

  lemma ZeroOrder(f: string)
    ensures Order(f, [f, Numbered(f, "0")]) == [Numbered(f, "0")]
  {
    var zero := Numbered(f, "0");
    assert ParseInt("0") == Some(0);
    NumberedName(f, "0", 0);
    BareNotMatched(f);
    MatchedNamesOfTwo(f, zero, f);
    assert [zero][..0] == [];
  }

  lemma ZeroNames(f: string)
    ensures var zero, one := Numbered(f, "0"), Numbered(f, "1");
            Suffix(zero).Some? && Bumped(zero) == one
            && f != zero && f != one && zero != one && f + ".1" == one
  {
    assert ParseInt("0") == Some(0) && IntToString(1) == "1";
    NumberedName(f, "0", 0);
    NumberedName(f, "1", 1);
    NumberedDistinct(f, "0", "1");
  }

  /** The loop over one name with an integer suffix, then the bare file. */
  lemma MoveOneAndBare(files: map<string, seq<string>>, f: string, x: string)
    requires Order(f, [f, x]) == [x] && Suffix(x).Some?
    ensures MoveSpec(files, f, [f, x]) == Rename(Rename(files, x, Bumped(x)), f, f + ".1")
  {
    MoveSpecOf(files, f, [f, x], [x]);
    RenameAllOne(files, x);
  }

  /** `move_recursively` as the rename loop over a known order, then the bare
      file. */
  lemma MoveSpecOf(files: map<string, seq<string>>, f: string, listing: seq<string>, order: seq<string>)
    requires Order(f, listing) == order
    ensures MoveSpec(files, f, listing)
            == if f in listing then Rename(RenameAll(files, order), f, f + ".1") else RenameAll(files, order)
  {
  }

  /** A bare file and a `filename.0` collide: `f.0` moves to `f.1`, and then
      `f` replaces it. */
  lemma ZeroSuffixCollision(f: string, a: seq<string>, b: seq<string>)
    ensures var zero := Numbered(f, "0");
            MoveSpec(map[f := a, zero := b], f, [f, zero]) == map[Numbered(f, "1") := a]
  {
    var zero, one := Numbered(f, "0"), Numbered(f, "1");
    ZeroOrder(f);
    ZeroNames(f);
    MoveOneAndBare(map[f := a, zero := b], f, zero);
    SwapTwo(f, zero, a, b);
    RenamedOntoOne(zero, f, one, b, a);
  }

  lemma SwapTwo(x: string, y: string, vx: seq<string>, vy: seq<string>)
    requires x != y
    ensures map[x := vx, y := vy] == map[y := vy, x := vx]
  {
  }

  lemma RotationOrder(f: string)
    ensures Order(f, [f, Numbered(f, "1"), Numbered(f, "3")]) == [Numbered(f, "3"), Numbered(f, "1")]
  {
    var one, three := Numbered(f, "1"), Numbered(f, "3");
    assert ParseInt("1") == Some(1) && ParseInt("3") == Some(3);
    NumberedName(f, "1", 1);
    NumberedName(f, "3", 3);
    BareNotMatched(f);
    MatchedLastTwo(f, one, three, f);
    LargerKeyFirst(one, three);
  }

  lemma RotationNames(f: string)
    ensures var one, two, three, four := Numbered(f, "1"), Numbered(f, "2"), Numbered(f, "3"), Numbered(f, "4");
            Suffix(one).Some? && Suffix(three).Some?
            && Bumped(one) == two && Bumped(three) == four && f + ".1" == one
  {
    assert ParseInt("1") == Some(1) && ParseInt("3") == Some(3);
    assert IntToString(2) == "2" && IntToString(4) == "4";
    NumberedName(f, "1", 1);
    NumberedName(f, "3", 3);
  }

  /** The loop over two names with integer suffixes, then the bare file. */
  lemma MoveTwoAndBare(files: map<string, seq<string>>, f: string, x: string, y: string)
    requires Order(f, [f, y, x]) == [x, y] && Suffix(x).Some? && Suffix(y).Some?
    ensures MoveSpec(files, f, [f, y, x])
            == Rename(Rename(Rename(files, x, Bumped(x)), y, Bumped(y)), f, f + ".1")
  {
    MoveSpecOf(files, f, [f, y, x], [x, y]);
    RenameAllTwo(files, x, y);
  }

  /** The usual rotation: `f`, `f.1`, `f.3` become `f.1`, `f.2`, `f.4`. */
  lemma RotationExample(f: string, a: seq<string>, b: seq<string>, c: seq<string>)
    ensures var one, three := Numbered(f, "1"), Numbered(f, "3");
            MoveSpec(map[f := a, one := b, three := c], f, [f, one, three])
            == map[one := a, Numbered(f, "2") := b, Numbered(f, "4") := c]
  {
    var one, two, three, four := Numbered(f, "1"), Numbered(f, "2"), Numbered(f, "3"), Numbered(f, "4");
    RotationOrder(f);
    RotationNames(f);
    RotationNamesDistinct(f);
    var files := map[f := a, one := b, three := c];
    MoveTwoAndBare(files, f, three, one);
    MapOfThree(f, one, three, a, b, c);
    RenameOfThree(three, f, one, four, c, a, b);
    MapOfThree(four, f, one, c, a, b);
    RenameOfThree(one, f, four, two, b, a, c);
    MapOfThree(two, f, four, b, a, c);
    RenameOfThree(f, two, four, one, a, b, c);
  }

  lemma RotationNamesDistinct(f: string)
    ensures var one, two, three, four := Numbered(f, "1"), Numbered(f, "2"), Numbered(f, "3"), Numbered(f, "4");
            f != one && f != two && f != three && f != four
            && one != two && one != three && one != four
            && two != three && two != four && three != four
  {
    assert |f| < |Numbered(f, "1")| && |f| < |Numbered(f, "2")|;
    assert |f| < |Numbered(f, "3")| && |f| < |Numbered(f, "4")|;
    NumberedDistinct(f, "1", "2");
    NumberedDistinct(f, "1", "3");
    NumberedDistinct(f, "1", "4");
    NumberedDistinct(f, "2", "3");
    NumberedDistinct(f, "2", "4");
    NumberedDistinct(f, "3", "4");
  }

  /** A map of three entries does not depend on the order they are written in. */
  lemma MapOfThree(x: string, y: string, z: string, vx: seq<string>, vy: seq<string>, vz: seq<string>)
    requires x != y && x != z && y != z
    ensures map[x := vx, y := vy, z := vz] == map[z := vz, x := vx, y := vy]
    ensures map[x := vx, y := vy, z := vz] == map[z := vz, y := vy, x := vx]
    ensures map[x := vx, y := vy, z := vz] == map[y := vy, x := vx, z := vz]
  {
  }

  /** Renaming one of three files onto a free name. */
  lemma RenameOfThree(a: string, b: string, c: string, t: string,
                      va: seq<string>, vb: seq<string>, vc: seq<string>)
    requires a != b && a != c && b != c && t != a && t != b && t != c
    ensures Rename(map[a := va, b := vb, c := vc], a, t) == map[t := va, b := vb, c := vc]
  {
  }

  /** Two files renamed onto one name leave only the second. */
  lemma RenamedOntoOne(a: string, b: string, t: string, ca: seq<string>, cb: seq<string>)
    requires a != b && t != a && t != b
    ensures Rename(Rename(map[a := ca, b := cb], a, t), b, t) == map[t := cb]
  {
    var first := Rename(map[a := ca, b := cb], a, t);
    assert first == map[b := cb, t := ca];
  }
}
