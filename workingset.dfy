/** The working set of conformers in censo_qm/utilities.py: `new_folders`
    creates each conformer's folder and moves the conformers whose folder cannot
    be created to the store, `check_for_folder` reports missing folders, and
    `crest_routine` writes the ensemble for CREGEN and moves the conformers it
    sorted out to the store. */
module WorkingSet {
  import opened Builtins
  import opened Sorting
  import opened Paths
  import opened Coordinates
  import opened Conformers
  import opened Ensemble

  /** The lists the utilities receive and update in place: the conformers being
      worked on, those calculated in an earlier run, the store of removed
      conformers and the error messages saved for the end of the run. */
  class ConformerLists {
    var conformers: seq<Conformer>
    var prevCalculated: seq<Conformer>
    var storeConfs: seq<Conformer>
    var saveErrors: seq<string>
  }

  // ---------------------------------------------------------------------------
  // new_folders

  /** `mkdir_p(path)`: whether the folder exists afterwards, and the folders
      then; `canCreate` says which missing folders the file system lets it
      create. */
  function Mkdir(folders: set<string>, path: string, canCreate: string -> bool): (r: (bool, set<string>))
    ensures r.0 <==> path in r.1
  {
    if path in folders then (true, folders)
    else if canCreate(path) then (true, folders + {path})
    else (false, folders)
  }

  /** The message saved for a conformer whose folder could not be created. */
  function IOFailed(c: Conformer): string
  {
    ConfName(c.id) + " was removed, because IO failed!"
  }

  /** What `new_folders` leaves: the conformers kept in the list, those moved to
      the store, and the folders. */
  datatype Outcome = Outcome(kept: seq<Conformer>, removed: seq<Conformer>, folders: set<string>)

  /** `new_folders` as written: it pops a failed conformer from the list it is
      iterating over, so the conformer after it is never looked at and stays in
      the list whether or not its folder exists. */
  function NewFoldersAsWritten(cwd: string, foldername: string, cs: seq<Conformer>,
                               folders: set<string>, canCreate: string -> bool): Outcome
    decreases |cs|
  {
    if |cs| == 0 then Outcome([], [], folders)
    else
      var m := Mkdir(folders, ConfFolder(cwd, cs[0].id, foldername), canCreate);
      if m.0 then
        var r := NewFoldersAsWritten(cwd, foldername, cs[1..], m.1, canCreate);
        Outcome([cs[0]] + r.kept, r.removed, r.folders)
      else if |cs| == 1 then Outcome([], [cs[0]], folders)
      else
        var r := NewFoldersAsWritten(cwd, foldername, cs[2..], folders, canCreate);
        Outcome([cs[1]] + r.kept, [cs[0]] + r.removed, r.folders)
  }

  /** `new_folders` as intended: every conformer is looked at. */
  function NewFoldersIntended(cwd: string, foldername: string, cs: seq<Conformer>,
                              folders: set<string>, canCreate: string -> bool): Outcome
    decreases |cs|
  {
    if |cs| == 0 then Outcome([], [], folders)
    else
      var m := Mkdir(folders, ConfFolder(cwd, cs[0].id, foldername), canCreate);
      var r := NewFoldersIntended(cwd, foldername, cs[1..], m.1, canCreate);
      if m.0 then Outcome([cs[0]] + r.kept, r.removed, r.folders)
      else Outcome(r.kept, [cs[0]] + r.removed, r.folders)
  }

  /** The lists as `new_folders` leaves them, from what the first processed
      conformers gave and the outcome of the rest. */
  function Combine(prefix: seq<Conformer>, removed: seq<Conformer>, rest: Outcome): Outcome
  {
    Outcome(prefix + rest.kept, removed + rest.removed, rest.folders)
  }

  /** `new_folders(cwd, conflist, foldername, save_errors, store_confs)` on
      `lists.conformers`, exactly as written: a failed conformer is popped at
      the loop's position, and the loop moves on past the one that takes its
      place. */
  method NewFolders(lists: ConformerLists, disk: Disk, cwd: string, foldername: string,
                    canCreate: string -> bool)
    modifies lists, disk
    ensures var r := NewFoldersAsWritten(cwd, foldername, old(lists.conformers), old(disk.folders), canCreate);
            lists.conformers == r.kept
            && lists.storeConfs == old(lists.storeConfs) + r.removed
            && lists.saveErrors == old(lists.saveErrors) + Map(IOFailed, r.removed)
            && disk.folders == r.folders
    ensures lists.prevCalculated == old(lists.prevCalculated) && disk.files == old(disk.files)
  {
    var r, messages := WalkAsWritten(cwd, foldername, lists.conformers, disk.folders, canCreate);
    lists.conformers := r.kept;
    lists.storeConfs := lists.storeConfs + r.removed;
    lists.saveErrors := lists.saveErrors + messages;
    disk.folders := r.folders;
  }

  /** The loop of `new_folders`, on the values of the lists. */
  method WalkAsWritten(cwd: string, foldername: string, conflist: seq<Conformer>, folders0: set<string>,
                       canCreate: string -> bool)
    returns (r: Outcome, messages: seq<string>)
    ensures r == NewFoldersAsWritten(cwd, foldername, conflist, folders0, canCreate)
    ensures messages == Map(IOFailed, r.removed)
  {
    var active, folders := conflist, folders0;
    var removed: seq<Conformer> := [];
    messages := [];
    var i := 0;
    assert active[..0] == [] && active[0..] == active;
    while i < |active|
      invariant i <= |active| + 1
      invariant Walking(cwd, foldername, conflist, folders0, canCreate, active, i, removed, folders)
      invariant messages == Map(IOFailed, removed)
      decreases |active| + 1 - i
    {
      var c := active[i];
      var path := ConfFolder(cwd, c.id, foldername);
      if path in folders || canCreate(path) {
        var m := Mkdir(folders, path, canCreate);
        KeptAt(cwd, foldername, conflist, folders0, canCreate, active, i, removed, folders);
        folders := m.1;
      } else {
        messages := messages + [IOFailed(c)];
        MapAppend(IOFailed, removed, c);
        active := PoppedAt(cwd, foldername, conflist, folders0, canCreate, active, i, removed, folders);
        removed := removed + [c];
      }
      i := i + 1;
    }
    assert active[..|active|] == active && active[|active|..] == [];
    r := Outcome(active, removed, folders);
  }

  /** The position the loop of `new_folders` has reached in the list. */
  function Clamp(i: nat, n: nat): nat
  {
    if i <= n then i else n
  }

  /** The invariant of the loop of `new_folders`: what the whole walk gives is
      the conformers passed so far, the conformers removed so far, and what the
      walk of the rest of the list gives. */
  predicate Walking(cwd: string, foldername: string, conflist: seq<Conformer>, folders0: set<string>,
                    canCreate: string -> bool, active: seq<Conformer>, i: nat, removed: seq<Conformer>,
                    folders: set<string>)
  {
    var j := Clamp(i, |active|);
    NewFoldersAsWritten(cwd, foldername, conflist, folders0, canCreate)
    == Combine(active[..j], removed, NewFoldersAsWritten(cwd, foldername, active[j..], folders, canCreate))
  }

  lemma KeptAt(cwd: string, foldername: string, conflist: seq<Conformer>, folders0: set<string>,
               canCreate: string -> bool, active: seq<Conformer>, i: nat, removed: seq<Conformer>,
               folders: set<string>)
    requires i < |active|
    requires Mkdir(folders, ConfFolder(cwd, active[i].id, foldername), canCreate).0
    requires Walking(cwd, foldername, conflist, folders0, canCreate, active, i, removed, folders)
    ensures Walking(cwd, foldername, conflist, folders0, canCreate, active, i + 1, removed,
                    Mkdir(folders, ConfFolder(cwd, active[i].id, foldername), canCreate).1)
  {
    KeptStep(cwd, foldername, active[..i], active[i], active[i + 1..], removed, folders, canCreate);
    assert active[i..] == [active[i]] + active[i + 1..];
    assert active[..i + 1] == active[..i] + [active[i]];
  }

  /** `conflist.pop(i)` in the loop of `new_folders`, and what it does to the
      rest of the walk. */
  method PoppedAt(cwd: string, foldername: string, conflist: seq<Conformer>, folders0: set<string>,
                  canCreate: string -> bool, active: seq<Conformer>, i: nat, removed: seq<Conformer>,
                  folders: set<string>)
    returns (next: seq<Conformer>)
    requires i < |active|
    requires !Mkdir(folders, ConfFolder(cwd, active[i].id, foldername), canCreate).0
    requires Walking(cwd, foldername, conflist, folders0, canCreate, active, i, removed, folders)
    ensures next == active[..i] + active[i + 1..]
    ensures Walking(cwd, foldername, conflist, folders0, canCreate, next, i + 1, removed + [active[i]], folders)
  {
    next := active[..i] + active[i + 1..];
    if i + 1 < |active| {
      PoppedSkips(cwd, foldername, conflist, folders0, canCreate, active, i, removed, folders);
    } else {
      PoppedLast(cwd, foldername, conflist, folders0, canCreate, active, i, removed, folders);
    }
  }

  lemma PoppedSkips(cwd: string, foldername: string, conflist: seq<Conformer>, folders0: set<string>,
                    canCreate: string -> bool, active: seq<Conformer>, i: nat, removed: seq<Conformer>,
                    folders: set<string>)
    requires i + 1 < |active|
    requires !Mkdir(folders, ConfFolder(cwd, active[i].id, foldername), canCreate).0
    requires Walking(cwd, foldername, conflist, folders0, canCreate, active, i, removed, folders)
    ensures Walking(cwd, foldername, conflist, folders0, canCreate, active[..i] + active[i + 1..], i + 1,
                    removed + [active[i]], folders)
  {
    SkippedStep(cwd, foldername, active[..i], active[i], active[i + 1], active[i + 2..], removed, folders, canCreate);
    PopSlices(active, i);
  }

  /** The slices of the list before and after `pop(i)`. */
  lemma PopSlices(active: seq<Conformer>, i: nat)
    requires i + 1 < |active|
    ensures active[i..] == [active[i], active[i + 1]] + active[i + 2..]
    ensures var next := active[..i] + active[i + 1..];
            Clamp(i + 1, |next|) == i + 1 && next[..i + 1] == active[..i] + [active[i + 1]]
            && next[i + 1..] == active[i + 2..]
  {
    var next := active[..i] + active[i + 1..];
    assert next[..i + 1] == active[..i] + [active[i + 1]];
    assert next[i + 1..] == active[i + 2..];
  }

  lemma PoppedLast(cwd: string, foldername: string, conflist: seq<Conformer>, folders0: set<string>,
                   canCreate: string -> bool, active: seq<Conformer>, i: nat, removed: seq<Conformer>,
                   folders: set<string>)
    requires i + 1 == |active|
    requires !Mkdir(folders, ConfFolder(cwd, active[i].id, foldername), canCreate).0
    requires Walking(cwd, foldername, conflist, folders0, canCreate, active, i, removed, folders)
    ensures Walking(cwd, foldername, conflist, folders0, canCreate, active[..i] + active[i + 1..], i + 1,
                    removed + [active[i]], folders)
  {
    var next := active[..i] + active[i + 1..];
    LastStep(cwd, foldername, active[..i], active[i], removed, folders, canCreate);
    assert active[i..] == [active[i]];
    assert next == active[..i] && next[i..] == [];
  }

  lemma KeptStep(cwd: string, foldername: string, prefix: seq<Conformer>, c: Conformer, tail: seq<Conformer>,
                 removed: seq<Conformer>, folders: set<string>, canCreate: string -> bool)
    requires Mkdir(folders, ConfFolder(cwd, c.id, foldername), canCreate).0
    ensures var m := Mkdir(folders, ConfFolder(cwd, c.id, foldername), canCreate);
            Combine(prefix, removed, NewFoldersAsWritten(cwd, foldername, [c] + tail, folders, canCreate))
            == Combine(prefix + [c], removed, NewFoldersAsWritten(cwd, foldername, tail, m.1, canCreate))
  {
    var m := Mkdir(folders, ConfFolder(cwd, c.id, foldername), canCreate);
    var rest := NewFoldersAsWritten(cwd, foldername, tail, m.1, canCreate);
    assert ([c] + tail)[1..] == tail;
    assert prefix + ([c] + rest.kept) == (prefix + [c]) + rest.kept;
  }

  lemma SkippedStep(cwd: string, foldername: string, prefix: seq<Conformer>, a: Conformer, b: Conformer,
                    tail: seq<Conformer>, removed: seq<Conformer>, folders: set<string>, canCreate: string -> bool)
    requires !Mkdir(folders, ConfFolder(cwd, a.id, foldername), canCreate).0
    ensures Combine(prefix, removed, NewFoldersAsWritten(cwd, foldername, [a, b] + tail, folders, canCreate))
            == Combine(prefix + [b], removed + [a], NewFoldersAsWritten(cwd, foldername, tail, folders, canCreate))
  {
    var rest := NewFoldersAsWritten(cwd, foldername, tail, folders, canCreate);
    assert ([a, b] + tail)[2..] == tail;
    assert prefix + ([b] + rest.kept) == (prefix + [b]) + rest.kept;
    assert removed + ([a] + rest.removed) == (removed + [a]) + rest.removed;
  }

  lemma LastStep(cwd: string, foldername: string, prefix: seq<Conformer>, a: Conformer,
                 removed: seq<Conformer>, folders: set<string>, canCreate: string -> bool)
    requires !Mkdir(folders, ConfFolder(cwd, a.id, foldername), canCreate).0
    ensures Combine(prefix, removed, NewFoldersAsWritten(cwd, foldername, [a], folders, canCreate))
            == Combine(prefix, removed + [a], NewFoldersAsWritten(cwd, foldername, [], folders, canCreate))
  {
  }

  /** `new_folders` as it is evidently meant to work: the loop runs over a copy
      of the list, as `crest_routine` does, so a pop does not skip anything. */
  method NewFoldersCorrected(lists: ConformerLists, disk: Disk, cwd: string, foldername: string,
                             canCreate: string -> bool)
    modifies lists, disk
    ensures var r := NewFoldersIntended(cwd, foldername, old(lists.conformers), old(disk.folders), canCreate);
            lists.conformers == r.kept
            && lists.storeConfs == old(lists.storeConfs) + r.removed
            && lists.saveErrors == old(lists.saveErrors) + Map(IOFailed, r.removed)
            && disk.folders == r.folders
    ensures lists.prevCalculated == old(lists.prevCalculated) && disk.files == old(disk.files)
  {
    var r, messages := WalkIntended(cwd, foldername, lists.conformers, disk.folders, canCreate);
    lists.conformers := r.kept;
    lists.storeConfs := lists.storeConfs + r.removed;
    lists.saveErrors := lists.saveErrors + messages;
    disk.folders := r.folders;
  }

  /** The loop of the corrected `new_folders`, over a copy of the list. */
  method WalkIntended(cwd: string, foldername: string, conflist: seq<Conformer>, folders0: set<string>,
                      canCreate: string -> bool)
    returns (r: Outcome, messages: seq<string>)
    ensures r == NewFoldersIntended(cwd, foldername, conflist, folders0, canCreate)
    ensures messages == Map(IOFailed, r.removed)
  {
    var kept, removed, folders := [], [], folders0;
    messages := [];
    for i := 0 to |conflist|
      invariant NewFoldersIntended(cwd, foldername, conflist, folders0, canCreate)
                == Combine(kept, removed, NewFoldersIntended(cwd, foldername, conflist[i..], folders, canCreate))
      invariant messages == Map(IOFailed, removed)
    {
      var c := conflist[i];
      var path := ConfFolder(cwd, c.id, foldername);
      WalkIntendedStep(cwd, foldername, conflist, i, kept, removed, folders, canCreate);
      if path in folders {
        kept := kept + [c];
      } else if canCreate(path) {
        folders := folders + {path};
        kept := kept + [c];
      } else {
        messages := messages + [IOFailed(c)];
        MapAppend(IOFailed, removed, c);
        removed := removed + [c];
      }
    }
    r := Outcome(kept, removed, folders);
  }

  lemma WalkIntendedStep(cwd: string, foldername: string, cs: seq<Conformer>, i: nat,
                         kept: seq<Conformer>, removed: seq<Conformer>,
                         folders: set<string>, canCreate: string -> bool)
    requires i < |cs|
    ensures var m := Mkdir(folders, ConfFolder(cwd, cs[i].id, foldername), canCreate);
            var rest := NewFoldersIntended(cwd, foldername, cs[i + 1..], m.1, canCreate);
            Combine(kept, removed, NewFoldersIntended(cwd, foldername, cs[i..], folders, canCreate))
            == if m.0 then Combine(kept + [cs[i]], removed, rest) else Combine(kept, removed + [cs[i]], rest)
  {
    var m := Mkdir(folders, ConfFolder(cwd, cs[i].id, foldername), canCreate);
    var rest := NewFoldersIntended(cwd, foldername, cs[i + 1..], m.1, canCreate);
    assert cs[i..][1..] == cs[i + 1..];
    assert kept + ([cs[i]] + rest.kept) == (kept + [cs[i]]) + rest.kept;
    assert removed + ([cs[i]] + rest.removed) == (removed + [cs[i]]) + rest.removed;
  }

  lemma MapAppend<T, U>(f: T -> U, s: seq<T>, x: T)
    ensures Map(f, s + [x]) == Map(f, s) + [f(x)]
  {
  }

  /** `new_folders` as written loses no conformer: every one is either kept or
      moved to the store. */
  lemma {:induction false} AsWrittenConserves(cwd: string, foldername: string, cs: seq<Conformer>,
                                              folders: set<string>, canCreate: string -> bool)
    ensures var r := NewFoldersAsWritten(cwd, foldername, cs, folders, canCreate);
            multiset(r.kept) + multiset(r.removed) == multiset(cs)
    decreases |cs|
  {
    if |cs| > 0 {
      var m := Mkdir(folders, ConfFolder(cwd, cs[0].id, foldername), canCreate);
      if m.0 {
        AsWrittenConserves(cwd, foldername, cs[1..], m.1, canCreate);
        ConservesKept(cwd, foldername, cs, folders, canCreate);
      } else if |cs| > 1 {
        AsWrittenConserves(cwd, foldername, cs[2..], folders, canCreate);
        ConservesSkipped(cwd, foldername, cs, folders, canCreate);
      }
    }
  }

  lemma ConservesKept(cwd: string, foldername: string, cs: seq<Conformer>,
                      folders: set<string>, canCreate: string -> bool)
    requires |cs| > 0
    requires Mkdir(folders, ConfFolder(cwd, cs[0].id, foldername), canCreate).0
    requires var r := NewFoldersAsWritten(cwd, foldername, cs[1..],
                                          Mkdir(folders, ConfFolder(cwd, cs[0].id, foldername), canCreate).1, canCreate);
             multiset(r.kept) + multiset(r.removed) == multiset(cs[1..])
    ensures var r := NewFoldersAsWritten(cwd, foldername, cs, folders, canCreate);
            multiset(r.kept) + multiset(r.removed) == multiset(cs)
  {
    var m := Mkdir(folders, ConfFolder(cwd, cs[0].id, foldername), canCreate);
    var r := NewFoldersAsWritten(cwd, foldername, cs[1..], m.1, canCreate);
    assert cs == [cs[0]] + cs[1..];
    assert multiset([cs[0]] + r.kept) == multiset{cs[0]} + multiset(r.kept);
  }

  lemma ConservesSkipped(cwd: string, foldername: string, cs: seq<Conformer>,
                         folders: set<string>, canCreate: string -> bool)
    requires |cs| > 1
    requires !Mkdir(folders, ConfFolder(cwd, cs[0].id, foldername), canCreate).0
    requires var r := NewFoldersAsWritten(cwd, foldername, cs[2..], folders, canCreate);
             multiset(r.kept) + multiset(r.removed) == multiset(cs[2..])
    ensures var r := NewFoldersAsWritten(cwd, foldername, cs, folders, canCreate);
            multiset(r.kept) + multiset(r.removed) == multiset(cs)
  {
    var r := NewFoldersAsWritten(cwd, foldername, cs[2..], folders, canCreate);
    assert cs == [cs[0], cs[1]] + cs[2..];
    SwappedPair(cs[0], cs[1], r.kept, r.removed, cs[2..]);
  }

  lemma SwappedPair(a: Conformer, b: Conformer, kept: seq<Conformer>, removed: seq<Conformer>, tail: seq<Conformer>)
    requires multiset(kept) + multiset(removed) == multiset(tail)
    ensures multiset([b] + kept) + multiset([a] + removed) == multiset([a, b] + tail)
  {
    assert [a, b] + tail == [a] + ([b] + tail);
  }

  /** `new_folders` as written only adds folders. */
  lemma {:induction false} AsWrittenGrows(cwd: string, foldername: string, cs: seq<Conformer>,
                                          folders: set<string>, canCreate: string -> bool)
    ensures folders <= NewFoldersAsWritten(cwd, foldername, cs, folders, canCreate).folders
    decreases |cs|
  {
    if |cs| > 0 {
      var m := Mkdir(folders, ConfFolder(cwd, cs[0].id, foldername), canCreate);
      if m.0 {
        AsWrittenGrows(cwd, foldername, cs[1..], m.1, canCreate);
      } else if |cs| > 1 {
        AsWrittenGrows(cwd, foldername, cs[2..], folders, canCreate);
      }
    }
  }

  /** `new_folders` as written moves a conformer to the store only when its
      folder did not exist and could not be created. */
  lemma {:induction false} AsWrittenRemovesFailed(cwd: string, foldername: string, cs: seq<Conformer>,
                                                  folders: set<string>, canCreate: string -> bool, c: Conformer)
    requires c in NewFoldersAsWritten(cwd, foldername, cs, folders, canCreate).removed
    ensures ConfFolder(cwd, c.id, foldername) !in folders
    ensures !canCreate(ConfFolder(cwd, c.id, foldername))
    decreases |cs|
  {
    var m := Mkdir(folders, ConfFolder(cwd, cs[0].id, foldername), canCreate);
    if m.0 {
      AsWrittenRemovesFailed(cwd, foldername, cs[1..], m.1, canCreate, c);
    } else if |cs| > 1 && c != cs[0] {
      AsWrittenRemovesFailed(cwd, foldername, cs[2..], folders, canCreate, c);
    }
  }

  /** `new_folders` as intended keeps exactly the conformers whose folder exists
      afterwards and stores the others, in their order. */
  lemma IntendedSeparates(cwd: string, foldername: string, cs: seq<Conformer>,
                          folders: set<string>, canCreate: string -> bool)
    ensures var r := NewFoldersIntended(cwd, foldername, cs, folders, canCreate);
            multiset(r.kept) + multiset(r.removed) == multiset(cs)
            && folders <= r.folders
            && (forall c :: c in r.kept ==> ConfFolder(cwd, c.id, foldername) in r.folders)
            && (forall c :: c in r.removed ==> ConfFolder(cwd, c.id, foldername) !in r.folders)
  {
    IntendedConserves(cwd, foldername, cs, folders, canCreate);
    IntendedGrows(cwd, foldername, cs, folders, canCreate);
    IntendedKeptHave(cwd, foldername, cs, folders, canCreate);
    IntendedRemovedLack(cwd, foldername, cs, folders, canCreate);
  }

  lemma {:induction false} IntendedConserves(cwd: string, foldername: string, cs: seq<Conformer>,
                                             folders: set<string>, canCreate: string -> bool)
    ensures var r := NewFoldersIntended(cwd, foldername, cs, folders, canCreate);
            multiset(r.kept) + multiset(r.removed) == multiset(cs)
    decreases |cs|
  {
    if |cs| > 0 {
      var m := Mkdir(folders, ConfFolder(cwd, cs[0].id, foldername), canCreate);
      IntendedConserves(cwd, foldername, cs[1..], m.1, canCreate);
      var rest := NewFoldersIntended(cwd, foldername, cs[1..], m.1, canCreate);
      if m.0 {
        ConsConserves(cs, rest.kept, rest.removed);
      } else {
        ConsConserves(cs, rest.removed, rest.kept);
      }
    }
  }

  /** Putting the head of the list at the head of either part keeps the count. */
  lemma ConsConserves(cs: seq<Conformer>, xs: seq<Conformer>, ys: seq<Conformer>)
    requires |cs| > 0 && multiset(xs) + multiset(ys) == multiset(cs[1..])
    ensures multiset([cs[0]] + xs) + multiset(ys) == multiset(cs)
    ensures multiset(ys) + multiset([cs[0]] + xs) == multiset(cs)
  {
    assert cs == [cs[0]] + cs[1..];
  }

  lemma {:induction false} IntendedGrows(cwd: string, foldername: string, cs: seq<Conformer>,
                                         folders: set<string>, canCreate: string -> bool)
    ensures folders <= NewFoldersIntended(cwd, foldername, cs, folders, canCreate).folders
    decreases |cs|
  {
    if |cs| > 0 {
      var m := Mkdir(folders, ConfFolder(cwd, cs[0].id, foldername), canCreate);
      IntendedGrows(cwd, foldername, cs[1..], m.1, canCreate);
    }
  }

  lemma {:induction false} IntendedKeptHave(cwd: string, foldername: string, cs: seq<Conformer>,
                                            folders: set<string>, canCreate: string -> bool)
    ensures var r := NewFoldersIntended(cwd, foldername, cs, folders, canCreate);
            forall c :: c in r.kept ==> ConfFolder(cwd, c.id, foldername) in r.folders
    decreases |cs|
  {
    if |cs| > 0 {
      var m := Mkdir(folders, ConfFolder(cwd, cs[0].id, foldername), canCreate);
      IntendedKeptHave(cwd, foldername, cs[1..], m.1, canCreate);
      IntendedGrows(cwd, foldername, cs[1..], m.1, canCreate);
    }
  }

  lemma {:induction false} IntendedRemovedLack(cwd: string, foldername: string, cs: seq<Conformer>,
                                               folders: set<string>, canCreate: string -> bool)
    ensures var r := NewFoldersIntended(cwd, foldername, cs, folders, canCreate);
            forall c :: c in r.removed ==> ConfFolder(cwd, c.id, foldername) !in r.folders
    decreases |cs|
  {
    if |cs| > 0 {
      var path := ConfFolder(cwd, cs[0].id, foldername);
      var m := Mkdir(folders, path, canCreate);
      IntendedRemovedLack(cwd, foldername, cs[1..], m.1, canCreate);
      if !m.0 {
        NeverCreated(cwd, foldername, cs[1..], folders, canCreate, path);
      }
    }
  }

  /** A folder that is missing and cannot be created stays missing. */
  lemma {:induction false} NeverCreated(cwd: string, foldername: string, cs: seq<Conformer>,
                                        folders: set<string>, canCreate: string -> bool, path: string)
    requires path !in folders && !canCreate(path)
    ensures path !in NewFoldersIntended(cwd, foldername, cs, folders, canCreate).folders
    decreases |cs|
  {
    if |cs| > 0 {
      var m := Mkdir(folders, ConfFolder(cwd, cs[0].id, foldername), canCreate);
      NeverCreated(cwd, foldername, cs[1..], m.1, canCreate, path);
    }
  }

  /** Without a failure the two agree. */
  lemma {:induction false} AsWrittenWithoutFailure(cwd: string, foldername: string, cs: seq<Conformer>,
                                                   folders: set<string>, canCreate: string -> bool)
    requires forall i :: 0 <= i < |cs| ==> canCreate(ConfFolder(cwd, cs[i].id, foldername))
    ensures NewFoldersAsWritten(cwd, foldername, cs, folders, canCreate)
            == NewFoldersIntended(cwd, foldername, cs, folders, canCreate)
            == Outcome(cs, [], NewFoldersIntended(cwd, foldername, cs, folders, canCreate).folders)
    decreases |cs|
  {
    if |cs| > 0 {
      var m := Mkdir(folders, ConfFolder(cwd, cs[0].id, foldername), canCreate);
      AsWrittenWithoutFailure(cwd, foldername, cs[1..], m.1, canCreate);
      assert cs == [cs[0]] + cs[1..];
    }
  }

  /** Two conformers in a row whose folders cannot be created: as written, the
      second one stays in the list without a folder. */
  lemma SkippedAfterFailure(cwd: string, foldername: string, a: Conformer, b: Conformer,
                            folders: set<string>, canCreate: string -> bool)
    requires ConfFolder(cwd, a.id, foldername) !in folders && !canCreate(ConfFolder(cwd, a.id, foldername))
    requires ConfFolder(cwd, b.id, foldername) !in folders && !canCreate(ConfFolder(cwd, b.id, foldername))
    ensures NewFoldersAsWritten(cwd, foldername, [a, b], folders, canCreate) == Outcome([b], [a], folders)
    ensures NewFoldersIntended(cwd, foldername, [a, b], folders, canCreate) == Outcome([], [a, b], folders)
  {
    assert [a, b][1..] == [b];
    assert [a, b][2..] == [];
    assert [b][1..] == [];
    assert NewFoldersIntended(cwd, foldername, [b], folders, canCreate) == Outcome([], [b], folders);
  }

  // ---------------------------------------------------------------------------
  // check_for_folder

  /** `os.path.exists(p)`: a folder or a file. */
  predicate PathExists(disk: Disk, p: string)
    reads disk
  {
    p in disk.folders || p in disk.files
  }

  /** Some conformer of `ids` has no folder `path/CONF<id>/foldername`. */
  predicate AnyMissing(disk: Disk, path: string, ids: seq<int>, foldername: string)
    reads disk
  {
    exists i :: 0 <= i < |ids| && !PathExists(disk, ConfFolder(path, ids[i], foldername))
  }

  /** `check_for_folder(path, conflist, foldername)`: true exactly when the
      folder of some conformer of the list does not exist. */
  method CheckForFolder(disk: Disk, path: string, conflist: seq<int>, foldername: string)
    returns (errorLogical: bool)
    ensures errorLogical <==> AnyMissing(disk, path, conflist, foldername)
  {
    errorLogical := false;
    for k := 0 to |conflist|
      invariant errorLogical <==> AnyMissing(disk, path, conflist[..k], foldername)
    {
      var tmpDir := ConfFolder(path, conflist[k], foldername);
      MissingStep(disk, path, conflist, foldername, k);
      if !(tmpDir in disk.folders || tmpDir in disk.files) {
        errorLogical := true;
      }
    }
    assert conflist[..|conflist|] == conflist;
  }

  lemma MissingStep(disk: Disk, path: string, ids: seq<int>, foldername: string, k: nat)
    requires k < |ids|
    ensures AnyMissing(disk, path, ids[..k + 1], foldername)
            <==> AnyMissing(disk, path, ids[..k], foldername) || !PathExists(disk, ConfFolder(path, ids[k], foldername))
  {
    var pre, next := ids[..k], ids[..k + 1];
    assert next[k] == ids[k];
    assert forall i :: 0 <= i < k ==> next[i] == pre[i];
  }

  /** After `new_folders` as intended, no kept conformer's folder is missing. */
  lemma NothingMissingAfterNewFolders(disk: Disk, cwd: string, foldername: string, cs: seq<Conformer>,
                                      canCreate: string -> bool)
    requires disk.folders == NewFoldersIntended(cwd, foldername, cs, disk.folders, canCreate).folders
    ensures var kept := NewFoldersIntended(cwd, foldername, cs, disk.folders, canCreate).kept;
            !AnyMissing(disk, cwd, Map((c: Conformer) => c.id, kept), foldername)
  {
    var r := NewFoldersIntended(cwd, foldername, cs, disk.folders, canCreate);
    IntendedSeparates(cwd, foldername, cs, disk.folders, canCreate);
    var ids := Map((c: Conformer) => c.id, r.kept);
    forall i | 0 <= i < |ids|
      ensures PathExists(disk, ConfFolder(cwd, ids[i], foldername))
    {
      assert r.kept[i] in r.kept;
    }
  }

  // ---------------------------------------------------------------------------
  // crest_routine

  const RotamerDir := "conformer_rotamer_check"
  const EnsembleFile := "conformers.xyz"

  /** The ensemble of `crest_routine`: both lists, sorted by the energy of the
      optimization (a stable sort). */
  function AllConfs(conformers: seq<Conformer>, prev: seq<Conformer>): (r: seq<Conformer>)
    ensures multiset(r) == multiset(conformers + prev)
    ensures forall i, j :: 0 <= i < j < |r| ==> r[i].optEnergy <= r[j].optEnergy
  {
    SortBy(conformers + prev, (c: Conformer) => c.optEnergy)
  }

  /** The file `t2x(path)` reads: path itself when its base name is "coord". */
  function CoordFileOf(path: string): string
  {
    if Basename(path) == "coord" then path else Join(path, "coord")
  }

  /** `t2x` of a conformer's folder: a missing coord file raises
      FileNotFoundError. */
  function ConformerXyz(files: map<string, seq<string>>, cwd: string, func: string, c: Conformer,
                        fmt: real -> string): Result<(seq<string>, nat)>
  {
    var p := CoordFileOf(ConfFolder(cwd, c.id, func));
    if p in files then T2xOf(files[p], fmt) else Err(FileNotFoundError)
  }

  /** One frame of conformers.xyz: the atom count, the energy (`fmt20` is
      20 wide, 8 decimals) with the conformer's name, then the atoms. */
  function Frame(c: Conformer, xyz: seq<string>, natoms: nat, fmt20: real -> string): (f: seq<string>)
    ensures |f| == |xyz| + 2
  {
    ["  " + IntToString(natoms), fmt20(c.optEnergy) + "        !" + ConfName(c.id)] + xyz
  }

  /** The frames of confs, in order, up to the first conformer `t2x` fails on,
      and that failure. */
  function Frames(files: map<string, seq<string>>, cwd: string, func: string, confs: seq<Conformer>,
                  fmt: real -> string, fmt20: real -> string): (seq<string>, Option<PyError>)
  {
    if |confs| == 0 then ([], None)
    else
      var prev := Frames(files, cwd, func, confs[..|confs| - 1], fmt, fmt20);
      if prev.1.Some? then prev
      else
        var c := confs[|confs| - 1];
        match ConformerXyz(files, cwd, func, c, fmt)
        case Err(e) => (prev.0, Some(e))
        case Ok(x) => (prev.0 + Frame(c, x.0, x.1, fmt20), None)
  }

  /** After a failure no further frame is written. */
  lemma {:induction false} FramesStop(files: map<string, seq<string>>, cwd: string, func: string,
                                      confs: seq<Conformer>, fmt: real -> string, fmt20: real -> string, k: nat)
    requires k <= |confs|
    requires Frames(files, cwd, func, confs[..k], fmt, fmt20).1.Some?
    ensures Frames(files, cwd, func, confs, fmt, fmt20) == Frames(files, cwd, func, confs[..k], fmt, fmt20)
    decreases |confs| - k
  {
    if k < |confs| {
      assert confs[..k + 1][..k] == confs[..k];
      FramesStop(files, cwd, func, confs, fmt, fmt20, k + 1);
    } else {
      assert confs[..k] == confs;
    }
  }

  /** One of the two loops of `crest_routine` that write conformers.xyz. */
  method WriteFrames(files: map<string, seq<string>>, cwd: string, func: string, confs: seq<Conformer>,
                     fmt: real -> string, fmt20: real -> string)
    returns (lines: seq<string>, err: Option<PyError>)
    ensures (lines, err) == Frames(files, cwd, func, confs, fmt, fmt20)
  {
    lines := [];
    for i := 0 to |confs|
      invariant (lines, None) == Frames(files, cwd, func, confs[..i], fmt, fmt20)
    {
      FrameStep(files, cwd, func, confs, fmt, fmt20, i);
      var c := confs[i];
      var p := CoordFileOf(ConfFolder(cwd, c.id, func));
      if p !in files {
        FramesStop(files, cwd, func, confs, fmt, fmt20, i + 1);
        return lines, Some(FileNotFoundError);
      }
      var x := T2x(files[p], fmt);
      if x.Err? {
        FramesStop(files, cwd, func, confs, fmt, fmt20, i + 1);
        return lines, Some(x.error);
      }
      lines := lines + Frame(c, x.value.0, x.value.1, fmt20);
    }
    assert confs[..|confs|] == confs;
    err := None;
  }

  /** Writing the frame of the next conformer. */
  lemma FrameStep(files: map<string, seq<string>>, cwd: string, func: string, confs: seq<Conformer>,
                  fmt: real -> string, fmt20: real -> string, i: nat)
    requires i < |confs|
    requires Frames(files, cwd, func, confs[..i], fmt, fmt20).1.None?
    ensures var prev := Frames(files, cwd, func, confs[..i], fmt, fmt20).0;
            Frames(files, cwd, func, confs[..i + 1], fmt, fmt20)
            == match ConformerXyz(files, cwd, func, confs[i], fmt)
               case Err(e) => (prev, Some(e))
               case Ok(x) => (prev + Frame(confs[i], x.0, x.1, fmt20), None)
  {
    assert confs[..i + 1][..i] == confs[..i];
  }

  /** The atom counts of the frames, as `t2x` reports them. */
  function AtomCount(files: map<string, seq<string>>, cwd: string, func: string, confs: seq<Conformer>,
                     fmt: real -> string): nat
  {
    if |confs| == 0 then 0
    else
      AtomCount(files, cwd, func, confs[..|confs| - 1], fmt)
      + match ConformerXyz(files, cwd, func, confs[|confs| - 1], fmt)
        case Ok(x) => x.1
        case Err(_) => 0
  }

  /** Each written frame holds exactly as many atom lines as its first line
      announces: the ensemble has two header lines per conformer plus all the
      atoms. */
  lemma {:induction false} FramesLength(files: map<string, seq<string>>, cwd: string, func: string,
                                        confs: seq<Conformer>, fmt: real -> string, fmt20: real -> string)
    requires Frames(files, cwd, func, confs, fmt, fmt20).1.None?
    ensures |Frames(files, cwd, func, confs, fmt, fmt20).0| == 2 * |confs| + AtomCount(files, cwd, func, confs, fmt)
  {
    if |confs| > 0 {
      var init := confs[..|confs| - 1];
      FramesLength(files, cwd, func, init, fmt, fmt20);
      var c := confs[|confs| - 1];
      var p := CoordFileOf(ConfFolder(cwd, c.id, func));
      T2xCount(files[p], fmt);
    }
  }

  /** `t2x` returns as many xyz lines as the atom count it reports. */
  lemma T2xCount(coord: seq<string>, fmt: real -> string)
    ensures T2xOf(coord, fmt).Ok? ==> |T2xOf(coord, fmt).value.0| == T2xOf(coord, fmt).value.1
  {
    var r := ParseLines(CoordBody(coord), ParseCoordLine);
    if r.Ok? {
      assert |Map(ToAngstrom, r.value)| == |r.value|;
    }
  }

  /** The files before conformers.xyz is written: the old conformers.xyz and
      coord of the comparison folder deleted, and the coord file of the lowest
      conformer copied there when it exists (a failed copy is only reported). */
  function Staged(files: map<string, seq<string>>, cwd: string, func: string, allconfs: seq<Conformer>)
    : map<string, seq<string>>
  {
    var dir := Join(cwd, RotamerDir);
    var cleared := files - {Join(dir, EnsembleFile), Join(dir, "coord")};
    if |allconfs| > 0 && CoordPath(cwd, allconfs[0].id, func) in cleared
    then cleared[Join(dir, "coord") := cleared[CoordPath(cwd, allconfs[0].id, func)]]
    else cleared
  }

  /** `line.split()[1][1:]` for every line of enso.tags; None when a line has
      fewer than two words (the IndexError is caught and nothing is removed). */
  function KeepOf(tags: seq<string>): (r: Option<seq<string>>)
    ensures r.Some? <==> forall i :: 0 <= i < |tags| ==> |Words(tags[i])| >= 2
    ensures r.Some? ==> |r.value| == |tags|
    ensures r.Some? ==> forall i :: 0 <= i < |tags| ==> r.value[i] == Words(tags[i])[1][1..]
  {
    if |tags| == 0 then Some([])
    else
      var prev := KeepOf(tags[..|tags| - 1]);
      var ws := Words(tags[|tags| - 1]);
      if prev.None? || |ws| < 2 then None
      else Some(prev.value + [ws[1][1..]])
  }

  /** The loop of `crest_routine` that reads the names to keep. */
  method ReadKeep(tags: seq<string>) returns (keep: Option<seq<string>>)
    ensures keep == KeepOf(tags)
  {
    var names: seq<string> := [];
    for i := 0 to |tags|
      invariant KeepOf(tags[..i]) == Some(names)
    {
      assert tags[..i + 1][..i] == tags[..i];
      var ws := Words(tags[i]);
      if |ws| < 2 {
        assert !(forall k :: 0 <= k < |tags| ==> |Words(tags[k])| >= 2);
        return None;
      }
      names := names + [ws[1][1..]];
    }
    assert tags[..|tags|] == tags;
    keep := Some(names);
  }

  /** A conformer CREGEN keeps: its name is among the kept names. */
  predicate Survives(c: Conformer, keep: seq<string>)
  {
    ConfName(c.id) in keep
  }

  /** The conformers CREGEN keeps, in their order. */
  function Kept(cs: seq<Conformer>, keep: seq<string>): (r: seq<Conformer>)
    ensures forall c :: c in r <==> c in cs && Survives(c, keep)
  {
    if |cs| == 0 then []
    else
      var init := cs[..|cs| - 1];
      assert cs == init + [cs[|cs| - 1]];
      Kept(init, keep) + (if Survives(cs[|cs| - 1], keep) then [cs[|cs| - 1]] else [])
  }

  /** The conformers CREGEN sorts out, in their order. */
  function SortedOut(cs: seq<Conformer>, keep: seq<string>): (r: seq<Conformer>)
    ensures forall c :: c in r <==> c in cs && !Survives(c, keep)
  {
    if |cs| == 0 then []
    else
      var init := cs[..|cs| - 1];
      assert cs == init + [cs[|cs| - 1]];
      SortedOut(init, keep) + (if Survives(cs[|cs| - 1], keep) then [] else [cs[|cs| - 1]])
  }

  /** A conformer sorted out by CREGEN, as it is stored. */
  function MarkRemoved(c: Conformer): Conformer
  {
    c.(info := "calculated", cregenSort := "removed")
  }

  /** The two loops of `crest_routine` that move the sorted-out conformers of one
      list to the store (they iterate over a copy, so nothing is skipped). */
  method Sift(cs: seq<Conformer>, keep: seq<string>) returns (kept: seq<Conformer>, removed: seq<Conformer>)
    ensures kept == Kept(cs, keep)
    ensures removed == Map(MarkRemoved, SortedOut(cs, keep))
  {
    kept, removed := [], [];
    for i := 0 to |cs|
      invariant kept == Kept(cs[..i], keep)
      invariant removed == Map(MarkRemoved, SortedOut(cs[..i], keep))
    {
      assert cs[..i + 1][..i] == cs[..i];
      if ConfName(cs[i].id) !in keep {
        MapAppend(MarkRemoved, SortedOut(cs[..i], keep), cs[i]);
        removed := removed + [MarkRemoved(cs[i])];
      } else {
        kept := kept + [cs[i]];
      }
    }
    assert cs[..|cs|] == cs;
  }

  /** CREGEN's sorting splits a list: nothing is lost or duplicated. */
  lemma {:induction false} SiftConserves(cs: seq<Conformer>, keep: seq<string>)
    ensures multiset(Kept(cs, keep)) + multiset(SortedOut(cs, keep)) == multiset(cs)
  {
    if |cs| > 0 {
      var init, last := cs[..|cs| - 1], cs[|cs| - 1];
      var k0, s0 := Kept(init, keep), SortedOut(init, keep);
      SiftConserves(init, keep);
      assert cs == init + [last];
      AppendOne(k0, s0, init, last);
      if Survives(last, keep) {
        assert Kept(cs, keep) == k0 + [last];
        assert SortedOut(cs, keep) == s0;
      } else {
        assert Kept(cs, keep) == k0;
        assert SortedOut(cs, keep) == s0 + [last];
      }
    }
  }

  /** The names CREGEN kept, when `crestcheck` is set and enso.tags can be read. */
  function KeepList(crestcheck: bool, tags: Option<seq<string>>): Option<seq<string>>
  {
    if crestcheck && tags.Some? then KeepOf(tags.value) else None
  }

  lemma AppendOne(kept: seq<Conformer>, out: seq<Conformer>, s: seq<Conformer>, x: Conformer)
    requires multiset(kept) + multiset(out) == multiset(s)
    ensures multiset(kept + [x]) + multiset(out) == multiset(s + [x])
    ensures multiset(kept) + multiset(out + [x]) == multiset(s + [x])
  {
  }

  /** `crest_routine(config, conformers, func, store_confs, prev_calculated)`:
      writes every frame of the energy-sorted ensemble twice into
      conformer_rotamer_check/conformers.xyz (a failing `t2x` raises, leaving the
      frames written so far); then, when `crestcheck` is set and enso.tags (the
      lines CREGEN wrote, None when it is missing) can be read, moves the
      conformers of both lists that CREGEN did not keep to the store. */
  method CrestRoutine(lists: ConformerLists, disk: Disk, cwd: string, func: string, crestcheck: bool,
                      tags: Option<seq<string>>, fmt: real -> string, fmt20: real -> string)
    returns (err: Option<PyError>)
    modifies lists, disk
    ensures var allconfs := AllConfs(old(lists.conformers), old(lists.prevCalculated));
            var staged := Staged(old(disk.files), cwd, func, allconfs);
            var frames := Frames(staged, cwd, func, allconfs, fmt, fmt20);
            disk.folders == old(disk.folders) + {Join(cwd, RotamerDir)}
            && err == frames.1
            && disk.files == staged[Join(Join(cwd, RotamerDir), EnsembleFile) :=
                                      if err.Some? then frames.0 else frames.0 + frames.0]
    ensures var keep := KeepList(crestcheck, tags);
            if err.None? && keep.Some? then SiftedLists(lists, old(lists.conformers), old(lists.prevCalculated),
                                                        old(lists.storeConfs), old(lists.saveErrors), keep.value)
            else unchanged(lists)
  {
    var allconfs := AllConfs(lists.conformers, lists.prevCalculated);
    Stage(disk, cwd, func, allconfs);
    err := WriteEnsemble(disk, cwd, func, allconfs, fmt, fmt20);
    if err.None? && crestcheck && tags.Some? {
      var keep := ReadKeep(tags.value);
      if keep.Some? {
        SiftLists(lists, keep.value);
      }
    }
  }

  /** The set-up of `crest_routine`: creates conformer_rotamer_check, deletes
      its old conformers.xyz and coord, and copies the coord file of the lowest
      conformer there when it exists. */
  method Stage(disk: Disk, cwd: string, func: string, allconfs: seq<Conformer>)
    modifies disk
    ensures disk.folders == old(disk.folders) + {Join(cwd, RotamerDir)}
    ensures disk.files == Staged(old(disk.files), cwd, func, allconfs)
  {
    var dir := Join(cwd, RotamerDir);
    if dir !in disk.folders {
      disk.folders := disk.folders + {dir};
    }
    var xyzPath := Join(dir, EnsembleFile);
    var coordPath := Join(dir, "coord");
    disk.files := disk.files - {xyzPath, coordPath};
    if |allconfs| > 0 {
      var source := CoordPath(cwd, allconfs[0].id, func);
      if source in disk.files {
        disk.files := disk.files[coordPath := disk.files[source]];
      }
    }
  }

  /** The two loops of `crest_routine` that write conformers.xyz. */
  method WriteEnsemble(disk: Disk, cwd: string, func: string, allconfs: seq<Conformer>,
                       fmt: real -> string, fmt20: real -> string)
    returns (err: Option<PyError>)
    modifies disk
    ensures var frames := Frames(old(disk.files), cwd, func, allconfs, fmt, fmt20);
            err == frames.1
            && disk.files == old(disk.files)[Join(Join(cwd, RotamerDir), EnsembleFile) :=
                                               if err.Some? then frames.0 else frames.0 + frames.0]
    ensures disk.folders == old(disk.folders)
  {
    var files := disk.files;
    var xyzPath := Join(Join(cwd, RotamerDir), EnsembleFile);
    var lines, e := WriteFrames(files, cwd, func, allconfs, fmt, fmt20);
    if e.Some? {
      disk.files := files[xyzPath := lines];
      return e;
    }
    var again, _ := WriteFrames(files, cwd, func, allconfs, fmt, fmt20);
    disk.files := files[xyzPath := lines + again];
    err := None;
  }

  /** The lists after CREGEN's sorting: each keeps the conformers CREGEN kept,
      and the others, marked, are appended to the store. */
  predicate SiftedLists(lists: ConformerLists, conformers: seq<Conformer>, prev: seq<Conformer>,
                        store: seq<Conformer>, errors: seq<string>, keep: seq<string>)
    reads lists
  {
    lists.conformers == Kept(conformers, keep)
    && lists.prevCalculated == Kept(prev, keep)
    && lists.storeConfs == store + Map(MarkRemoved, SortedOut(conformers, keep))
                                 + Map(MarkRemoved, SortedOut(prev, keep))
    && lists.saveErrors == errors
  }

  /** The removal loops of `crest_routine` over both lists. */
  method SiftLists(lists: ConformerLists, keep: seq<string>)
    modifies lists
    ensures SiftedLists(lists, old(lists.conformers), old(lists.prevCalculated),
                        old(lists.storeConfs), old(lists.saveErrors), keep)
  {
    var kept, removed := Sift(lists.conformers, keep);
    var keptPrev, removedPrev := Sift(lists.prevCalculated, keep);
    lists.conformers := kept;
    lists.prevCalculated := keptPrev;
    lists.storeConfs := lists.storeConfs + removed + removedPrev;
  }
}
