/**
 * Removing what is left of a private store (scripts/release-consumer-cleanup.py): a scan of the
 * whole tree must accept every entry before anything is deleted.
 */
module Residual {
  import opened Wrappers

  datatype Kind = Link | Directory(children: seq<Entry>) | Regular(links: nat) | Special

  datatype Entry = Entry(name: string, uid: int, mount: bool, kind: Kind)

  datatype Refusal = OutsideWorkspace | UnsafePath | LinkOrMount | ForeignOwner | UnexpectedType | Denied

  function Children(e: Entry): seq<Entry> {
    if e.kind.Directory? then e.kind.children else []
  }

  /** Every entry at every depth. */
  function Entries(es: seq<Entry>): seq<Entry> {
    if es == [] then []
    else [es[0]] + (if es[0].kind.Directory? then Entries(es[0].kind.children) else []) + Entries(es[1..])
  }

  /** Why the scan refuses an entry, if it does. */
  function EntryProblem(e: Entry, uid: int): Option<Refusal> {
    if e.kind.Link? || e.mount then Some(LinkOrMount)
    else if e.uid != uid then Some(ForeignOwner)
    else if e.kind.Special? || (e.kind.Regular? && e.kind.links != 1) then Some(UnexpectedType)
    else None
  }

  function RootProblem(e: Entry, uid: int): Option<Refusal> {
    if !e.kind.Directory? || e.mount then Some(UnsafePath)
    else if e.uid != uid then Some(ForeignOwner)
    else None
  }

  ghost predicate Safe(es: seq<Entry>, uid: int) {
    forall e :: e in Entries(es) ==> EntryProblem(e, uid).None?
  }

  // ----- Deleting -----

  /** What a deletion leaves, and why it stopped. */
  datatype Swept = Swept(rest: seq<Entry>, problem: Option<Refusal>)

  /** The system removes an entry that is no mount point from a directory of ours. */
  predicate CanUnlink(owner: int, e: Entry, uid: int) {
    owner == uid && !e.mount
  }

  /** shutil.rmtree on the entries of a directory, each after what is in it. Links are not followed. */
  function RemoveTrees(owner: int, es: seq<Entry>, uid: int): Swept
    decreases es
  {
    if es == [] then Swept([], None)
    else
      var head := es[0];
      var inner := if head.kind.Directory? then RemoveTrees(head.uid, head.kind.children, uid) else Swept([], None);
      var left := if head.kind.Directory? then head.(kind := Directory(inner.rest)) else head;
      if inner.problem.Some? then Swept([left] + es[1..], inner.problem)
      else if !CanUnlink(owner, head, uid) then Swept([left] + es[1..], Some(Denied))
      else RemoveTrees(owner, es[1..], uid)
  }

  /** Clearing one entry of a private directory. */
  function ClearEntry(owner: int, e: Entry, uid: int): Swept {
    if e.kind.Link? || e.mount then Swept([e], Some(LinkOrMount))
    else if e.kind.Directory? then RemoveTrees(owner, [e], uid)
    else if e.kind.Regular? && e.kind.links == 1 then
      if CanUnlink(owner, e, uid) then Swept([], None) else Swept([e], Some(Denied))
    else Swept([e], Some(UnexpectedType))
  }

  /** clear_private_directory, past the check of the directory itself. */
  function Clear(owner: int, es: seq<Entry>, uid: int): Swept {
    if es == [] then Swept([], None)
    else
      var first := ClearEntry(owner, es[0], uid);
      if first.problem.Some? then Swept(first.rest + es[1..], first.problem)
      else Clear(owner, es[1..], uid)
  }

  lemma SafeParts(es: seq<Entry>, uid: int)
    requires es != [] && Safe(es, uid)
    ensures EntryProblem(es[0], uid).None? && Safe(Children(es[0]), uid) && Safe(es[1..], uid)
  {
    var head := es[0];
    assert head in Entries(es);
  }

  lemma {:induction false} SafeTreesAreRemoved(es: seq<Entry>, uid: int)
    requires Safe(es, uid)
    ensures RemoveTrees(uid, es, uid) == Swept([], None)
    decreases es
  {
    if es != [] {
      SafeParts(es, uid);
      if es[0].kind.Directory? { SafeTreesAreRemoved(es[0].kind.children, uid); }
      SafeTreesAreRemoved(es[1..], uid);
    }
  }

  lemma SingleTree(e: Entry, uid: int)
    requires e.uid == uid && !e.mount
    requires e.kind.Directory? ==> RemoveTrees(uid, e.kind.children, uid) == Swept([], None)
    ensures RemoveTrees(uid, [e], uid) == Swept([], None)
  {
    var es := [e];
    assert es[1..] == [] && RemoveTrees(uid, es[1..], uid) == Swept([], None);
    assert RemoveTrees(uid, es, uid) == RemoveTrees(uid, es[1..], uid);
  }

  /** Once the scan accepts a directory of ours, clearing it cannot fail, and leaves it empty. */
  lemma {:induction false} SafeDirectoryIsCleared(es: seq<Entry>, uid: int)
    requires Safe(es, uid)
    ensures Clear(uid, es, uid) == Swept([], None)
  {
    if es != [] {
      SafeParts(es, uid);
      SafeTreesAreRemoved(Children(es[0]), uid);
      SingleTree(es[0], uid);
      assert ClearEntry(uid, es[0], uid) == Swept([], None);
      SafeDirectoryIsCleared(es[1..], uid);
    }
  }

  lemma TreesLeftOver(owner: int, es: seq<Entry>, uid: int)
    ensures RemoveTrees(owner, es, uid).problem.None? <==> RemoveTrees(owner, es, uid).rest == []
  {
  }

  /** Clearing succeeds exactly when nothing is left. */
  lemma {:induction false} ClearedIffEmpty(owner: int, es: seq<Entry>, uid: int)
    ensures Clear(owner, es, uid).problem.None? <==> Clear(owner, es, uid).rest == []
  {
    if es != [] {
      TreesLeftOver(owner, [es[0]], uid);
      ClearedIffEmpty(owner, es[1..], uid);
    }
  }

  /** A refused entry is never lost. */
  lemma {:induction false} ClearingKeepsRefused(owner: int, es: seq<Entry>, uid: int, e: Entry)
    requires e in es && (e.kind.Link? || e.mount || e.kind.Special? || (e.kind.Regular? && e.kind.links != 1))
    ensures e in Clear(owner, es, uid).rest && Clear(owner, es, uid).problem.Some?
  {
    if ClearEntry(owner, es[0], uid).problem.None? {
      ClearingKeepsRefused(owner, es[1..], uid, e);
    }
  }

  /** The entry that deletion reaches first, with the owner of the directory it is in. */
  function FirstDeleted(owner: int, e: Entry): (int, Entry)
    decreases e
  {
    if e.kind.Directory? && e.kind.children != [] then FirstDeleted(e.uid, e.kind.children[0]) else (owner, e)
  }

  /** That entry is no mount point, and in a directory of ours. */
  predicate Deletable(owner: int, e: Entry, uid: int) {
    FirstDeleted(owner, e).0 == uid && FirstDeleted(owner, e).1.mount == false
  }

  lemma {:induction false} TreesNeverGrow(owner: int, es: seq<Entry>, uid: int)
    ensures |RemoveTrees(owner, es, uid).rest| <= |es|
  {
    if es != [] { TreesNeverGrow(owner, es[1..], uid); }
  }

  /** Deleting trees leaves them as they were exactly when the entry it reaches first may not be deleted. */
  lemma {:induction false} TreesUnchangedIff(owner: int, es: seq<Entry>, uid: int)
    requires es != []
    ensures RemoveTrees(owner, es, uid).rest == es <==> !Deletable(owner, es[0], uid)
    ensures RemoveTrees(owner, es, uid).problem.None? ==> Deletable(owner, es[0], uid)
    decreases es
  {
    var head := es[0];
    TreesNeverGrow(owner, es[1..], uid);
    if head.kind.Directory? && head.kind.children != [] {
      TreesUnchangedIff(head.uid, head.kind.children, uid);
      TreesLeftOver(head.uid, head.kind.children, uid);
      assert es == [head] + es[1..];
    } else {
      assert head.kind.Directory? ==> head.(kind := Directory([])) == head;
      assert es == [head] + es[1..];
    }
  }

  /** Clearing is refused at this entry before it has removed anything. */
  predicate RefusedOutright(owner: int, e: Entry, uid: int) {
    e.kind.Link? || e.mount || e.kind.Special? || (e.kind.Regular? && e.kind.links != 1) || !Deletable(owner, e, uid)
  }

  /** A clearing that is refused has removed nothing exactly when it is refused outright at the first entry. */
  lemma RefusedClearingLosesNothingIff(owner: int, es: seq<Entry>, uid: int)
    requires Clear(owner, es, uid).problem.Some?
    ensures Clear(owner, es, uid).rest == es <==> RefusedOutright(owner, es[0], uid)
  {
    var first := ClearEntry(owner, es[0], uid);
    ClearNeverGrows(owner, es[1..], uid);
    assert es == [es[0]] + es[1..];
    if es[0].kind.Directory? && !es[0].mount {
      TreesUnchangedIff(owner, [es[0]], uid);
      TreesNeverGrow(owner, [es[0]], uid);
    }
    if first.problem.Some? { SamePrefix(first.rest, [es[0]], es[1..]); }
  }

  lemma SamePrefix(a: seq<Entry>, b: seq<Entry>, rest: seq<Entry>)
    ensures a + rest == b + rest <==> a == b
  {
    if a + rest == b + rest { assert |a| == |b| && a == (a + rest)[..|a|] && b == (b + rest)[..|b|]; }
  }

  lemma {:induction false} ClearNeverGrows(owner: int, es: seq<Entry>, uid: int)
    ensures |Clear(owner, es, uid).rest| <= |es|
  {
    if es != [] {
      TreesNeverGrow(owner, [es[0]], uid);
      ClearNeverGrows(owner, es[1..], uid);
    }
  }

  /** Without the scan, a file beside a link is gone when the clearing is refused. */
  lemma ClearingAloneIsNotAtomic(uid: int)
    ensures var file, link := Entry("a", uid, false, Regular(1)), Entry("b", uid, false, Link);
      Clear(uid, [file, link], uid) == Swept([link], Some(LinkOrMount)) && !Safe([file, link], uid)
  {
    var file, link := Entry("a", uid, false, Regular(1)), Entry("b", uid, false, Link);
    var es := [file, link];
    assert es[1..] == [link] && link in Entries([link]);
    assert Entries(es) == [file] + Entries([link]) && link in Entries(es);
    assert EntryProblem(link, uid).Some?;
    assert Clear(uid, [link], uid) == Swept([link] + [link][1..], Some(LinkOrMount));
  }

  // ----- The scan -----

  /** Every entry below the directories still to be read. */
  ghost function Work(pending: seq<seq<Entry>>): multiset<Entry> {
    if pending == [] then multiset{}
    else Work(pending[..|pending| - 1]) + multiset(Entries(pending[|pending| - 1]))
  }

  /** What is still queued, what was seen, and the rest of the directory being read. */
  ghost function Balance(queue: seq<seq<Entry>>, seen: seq<Entry>, rest: seq<Entry>): multiset<Entry> {
    Work(queue) + multiset(seen) + multiset(Entries(rest))
  }

  predicate AllFine(es: seq<Entry>, uid: int) {
    forall e :: e in es ==> EntryProblem(e, uid).None?
  }

  lemma AllFineConcat(a: seq<Entry>, b: seq<Entry>, uid: int)
    requires AllFine(a, uid) && AllFine(b, uid)
    ensures AllFine(a + b, uid)
  {
  }

  ghost function Queued(queue: seq<seq<Entry>>, e: Entry): seq<seq<Entry>> {
    if e.kind.Directory? then queue + [e.kind.children] else queue
  }

  lemma Rearranged(work: multiset<Entry>, inside: multiset<Entry>, seen: multiset<Entry>, one: multiset<Entry>,
      rest: multiset<Entry>)
    ensures (work + inside) + (seen + one) + rest == work + seen + (one + inside + rest)
  {
  }

  lemma EntriesFrom(directory: seq<Entry>, i: nat)
    requires i < |directory|
    ensures Entries(directory[i..]) == [directory[i]] + Entries(Children(directory[i])) + Entries(directory[i + 1..])
  {
    assert directory[i..][1..] == directory[i + 1..] && directory[i..][0] == directory[i];
  }

  lemma WorkQueued(queue: seq<seq<Entry>>, e: Entry)
    ensures Work(Queued(queue, e)) == Work(queue) + multiset(Entries(Children(e)))
  {
    assert (queue + [Children(e)])[..|queue|] == queue;
  }

  lemma QueueStep(directory: seq<Entry>, i: nat, queue: seq<seq<Entry>>, seen: seq<Entry>)
    requires i < |directory|
    ensures Balance(Queued(queue, directory[i]), seen + [directory[i]], directory[i + 1..]) ==
      Balance(queue, seen, directory[i..])
    ensures seen == directory[..i] ==> seen + [directory[i]] == directory[..i + 1]
  {
    var e := directory[i];
    EntriesFrom(directory, i);
    WorkQueued(queue, e);
    Balanced(Work(queue), Entries(Children(e)), seen, e, Entries(directory[i + 1..]));
  }

  lemma Balanced(work: multiset<Entry>, inside: seq<Entry>, seen: seq<Entry>, e: Entry, rest: seq<Entry>)
    ensures (work + multiset(inside)) + multiset(seen + [e]) + multiset(rest) ==
      work + multiset(seen) + multiset([e] + inside + rest)
  {
    Rearranged(work, multiset(inside), multiset(seen), multiset([e]), multiset(rest));
  }

  /** The checks the scan makes on one entry, in order. */
  method CheckEntry(entry: Entry, uid: int) returns (problem: Option<Refusal>)
    ensures problem == EntryProblem(entry, uid)
  {
    if entry.kind.Link? || entry.mount { return Some(LinkOrMount); }
    if entry.uid != uid { return Some(ForeignOwner); }
    if !entry.kind.Directory? && (!entry.kind.Regular? || entry.kind.links != 1) { return Some(UnexpectedType); }
    return None;
  }

  /** Reading one directory: checks each of its entries, and queues its directories. */
  method ScanDirectory(directory: seq<Entry>, pending: seq<seq<Entry>>, uid: int)
    returns (problem: Option<Refusal>, queue: seq<seq<Entry>>, ghost seen: seq<Entry>)
    ensures problem.None? ==>
      seen == directory && AllFine(seen, uid) && Balance(queue, seen, []) == Balance(pending, [], directory)
    ensures problem.None? && directory == [] ==> queue == pending
    ensures problem.Some? ==> exists e :: e in directory && EntryProblem(e, uid) == problem
  {
    queue, seen := pending, [];
    for i := 0 to |directory|
      invariant seen == directory[..i] && AllFine(seen, uid)
      invariant Balance(queue, seen, directory[i..]) == Balance(pending, [], directory)
      invariant i == 0 ==> queue == pending
    {
      var entry := directory[i];
      problem := CheckEntry(entry, uid);
      if problem.Some? { return; }
      QueueStep(directory, i, queue, seen);
      AllFineConcat(seen, [entry], uid);
      ghost var next := Queued(queue, entry);
      if entry.kind.Directory? { queue := queue + [entry.kind.children]; }
      assert queue == next;
      seen := seen + [entry];
    }
    assert directory[..|directory|] == directory && directory[|directory|..] == [];
    problem := None;
  }

  lemma DirectlyInside(es: seq<Entry>, e: Entry)
    requires e in es
    ensures e in Entries(es)
  {
    if e != es[0] { DirectlyInside(es[1..], e); }
  }

  lemma FoundInside(pending: seq<seq<Entry>>, visited: seq<Entry>, root: seq<Entry>, e: Entry)
    requires pending != [] && e in pending[|pending| - 1]
    requires Work(pending) + multiset(visited) == multiset(Entries(root))
    ensures e in Entries(root)
  {
    DirectlyInside(pending[|pending| - 1], e);
    assert e in multiset(Entries(pending[|pending| - 1]));
    assert e in Work(pending);
    assert e in multiset(Entries(root));
  }

  /**
   * The worklist: it ends, it accepts exactly when every entry at every depth is acceptable, and
   * then it has visited each entry once.
   */
  method Scan(root: seq<Entry>, uid: int) returns (problem: Option<Refusal>, ghost visited: seq<Entry>)
    ensures problem.None? <==> Safe(root, uid)
    ensures problem.None? ==> multiset(visited) == multiset(Entries(root))
    ensures problem.Some? ==> exists e :: e in Entries(root) && EntryProblem(e, uid) == problem
  {
    var pending := [root];
    visited := [];
    WorkOfOne(root);
    while pending != []
      invariant Work(pending) + multiset(visited) == multiset(Entries(root)) && AllFine(visited, uid)
      decreases |Work(pending)|, |pending|
    {
      var directory := pending[|pending| - 1];
      ghost var before := pending;
      pending := pending[..|pending| - 1];
      ghost var seen;
      problem, pending, seen := ScanDirectory(directory, pending, uid);
      if problem.Some? {
        var e :| e in directory && EntryProblem(e, uid) == problem;
        FoundInside(before, visited, root, e);
        return;
      }
      ScanStep(before, pending, directory);
      AllFineConcat(visited, seen, uid);
      visited := visited + seen;
    }
    AllVisited(visited, root, uid);
    problem := None;
  }

  lemma WorkOfOne(root: seq<Entry>)
    ensures Work([root]) + multiset([]) == multiset(Entries(root))
  {
    assert [root][..0] == [];
  }

  lemma ScanStep(before: seq<seq<Entry>>, after: seq<seq<Entry>>, directory: seq<Entry>)
    requires before != [] && directory == before[|before| - 1]
    requires Balance(after, directory, []) == Balance(before[..|before| - 1], [], directory)
    ensures Work(after) + multiset(directory) == Work(before)
    ensures |Work(after)| + |directory| == |Work(before)|
  {
    NothingAdded(Work(after), multiset(directory), multiset(Entries([])), Work(before[..|before| - 1]), multiset([]),
      multiset(Entries(directory)));
  }

  lemma NothingAdded(a: multiset<Entry>, b: multiset<Entry>, none: multiset<Entry>, c: multiset<Entry>,
      nothing: multiset<Entry>, d: multiset<Entry>)
    requires none == nothing == multiset{} && a + b + none == c + nothing + d
    ensures a + b == c + d && |a| + |b| == |c + d|
  {
    assert a + b + none == a + b && c + nothing + d == c + d;
    assert |a + b| == |a| + |b|;
  }

  lemma AllVisited(visited: seq<Entry>, root: seq<Entry>, uid: int)
    requires multiset(visited) == multiset(Entries(root)) && AllFine(visited, uid)
    ensures Safe(root, uid)
  {
    forall e | e in Entries(root) ensures EntryProblem(e, uid).None? {
      assert e in multiset(visited);
    }
  }

  // ----- The stores -----

  function Emptied(store: Entry): Entry {
    store.(kind := Directory([]))
  }

  /** The entry that a path of positions leads to. */
  ghost predicate Inside(es: seq<Entry>, path: seq<nat>, e: Entry)
    decreases |path|
  {
    path != [] && path[0] < |es| &&
    if |path| == 1 then e == es[path[0]]
    else es[path[0]].kind.Directory? && Inside(es[path[0]].kind.children, path[1..], e)
  }

  /** An entry at any depth. */
  ghost predicate Below(es: seq<Entry>, e: Entry) {
    exists path :: Inside(es, path, e)
  }

  lemma EntriesAreBelow(es: seq<Entry>, e: Entry)
    ensures e in Entries(es) <==> Below(es, e)
  {
    if e in Entries(es) { var path := EntryInside(es, e); }
    if Below(es, e) {
      var path :| Inside(es, path, e);
      InsideIsEntry(es, path, e);
    }
  }

  /** A directory, or a file with one name, that is ours and no mount point. */
  ghost predicate Ordinary(e: Entry, uid: int) {
    e.uid == uid && !e.mount && (e.kind.Directory? || e.kind == Regular(1))
  }

  /** A store that is missing, or a directory of ours whose whole tree is ours and ordinary. */
  ghost predicate Removable(stores: map<string, Entry>, path: string, uid: int) {
    path in stores ==>
      && stores[path].kind.Directory? && !stores[path].mount && stores[path].uid == uid
      && forall e :: Below(stores[path].kind.children, e) ==> Ordinary(e, uid)
  }

  lemma {:induction false} EntryInside(es: seq<Entry>, e: Entry) returns (path: seq<nat>)
    requires e in Entries(es)
    ensures Inside(es, path, e)
    decreases es
  {
    if e == es[0] {
      path := [0];
    } else if es[0].kind.Directory? && e in Entries(es[0].kind.children) {
      var below := EntryInside(es[0].kind.children, e);
      path := [0] + below;
      assert path[1..] == below;
    } else {
      var later := EntryInside(es[1..], e);
      path := [later[0] + 1] + later[1..];
      assert path[1..] == later[1..] && es[path[0]] == es[1..][later[0]];
    }
  }

  lemma {:induction false} InsideIsEntry(es: seq<Entry>, path: seq<nat>, e: Entry)
    requires Inside(es, path, e)
    ensures e in Entries(es)
    decreases es, |path|
  {
    if path[0] > 0 {
      var later := [path[0] - 1] + path[1..];
      assert es[1..][later[0]] == es[path[0]] && later[1..] == path[1..];
      InsideIsEntry(es[1..], later, e);
    } else if |path| > 1 {
      InsideIsEntry(es[0].kind.children, path[1..], e);
    }
  }

  /** The scan accepts a tree exactly when every entry at every depth is ordinary. */
  lemma SafeIff(es: seq<Entry>, uid: int)
    ensures Safe(es, uid) <==> forall e :: Below(es, e) ==> Ordinary(e, uid)
  {
    forall e ensures e in Entries(es) <==> Below(es, e) { EntriesAreBelow(es, e); }
  }

  lemma RemovableIff(stores: map<string, Entry>, path: string, uid: int)
    ensures Removable(stores, path, uid) <==>
      (path in stores ==> RootProblem(stores[path], uid).None? && Safe(Children(stores[path]), uid))
  {
    if path in stores { SafeIff(Children(stores[path]), uid); }
  }

  /** The stores after some were cleared. */
  function Cleared(stores: map<string, Entry>, paths: set<string>): map<string, Entry> {
    map p | p in stores :: if p in paths then Emptied(stores[p]) else stores[p]
  }

  function Among(paths: seq<string>): set<string> {
    set p | p in paths
  }

  class Workspace {
    const uid: int
    var stores: map<string, Entry>

    constructor (uid: int, stores: map<string, Entry>)
      ensures this.uid == uid && this.stores == stores
    {
      this.uid, this.stores := uid, stores;
    }

    /** clear_private_directory */
    method ClearPrivateDirectory(path: string) returns (problem: Option<Refusal>)
      requires path in stores
      modifies this`stores
      ensures var store := old(stores)[path];
        if !store.kind.Directory? || store.mount then problem == Some(UnsafePath) && stores == old(stores)
        else
          var swept := Clear(store.uid, store.kind.children, uid);
          problem == swept.problem && stores == old(stores)[path := store.(kind := Directory(swept.rest))]
    {
      var store := stores[path];
      if !store.kind.Directory? || store.mount { return Some(UnsafePath); }
      var children := store.kind.children;
      assert children[0..] == children && store == store.(kind := Directory(children));
      for i := 0 to |children|
        invariant stores == old(stores)[path := store.(kind := Directory(children[i..]))]
        invariant Clear(store.uid, children, uid) == Clear(store.uid, children[i..], uid)
      {
        assert children[i..][1..] == children[i + 1..];
        var swept := ClearEntry(store.uid, children[i], uid);
        stores := stores[path := store.(kind := Directory(swept.rest + children[i + 1..]))];
        if swept.problem.Some? { return swept.problem; }
        ClearedEntryIsGone(store.uid, children[i], uid);
        assert swept.rest + children[i + 1..] == children[i + 1..];
      }
      assert children[|children|..] == [];
      return None;
    }

    /**
     * remove_host_owned_store_residual: a store with any unacceptable entry is left as it was;
     * any other is emptied, and only that one changes.
     */
    method RemoveResidual(path: string, allowed: set<string>) returns (problem: Option<Refusal>)
      modifies this`stores
      ensures problem.None? <==> path in allowed && Removable(old(stores), path, uid)
      ensures problem == Some(OutsideWorkspace) <==> path !in allowed
      ensures path in allowed && path in old(stores) && (!old(stores)[path].kind.Directory? || old(stores)[path].mount) ==>
        problem == Some(UnsafePath)
      ensures stores == if problem.None? then Cleared(old(stores), {path}) else old(stores)
    {
      RemovableIff(stores, path, uid);
      if path !in allowed { return Some(OutsideWorkspace); }
      if path !in stores {
        assert stores == Cleared(stores, {path});
        return None;
      }
      var store := stores[path];
      problem := RootProblem(store, uid);
      if problem.Some? { return; }
      ghost var visited;
      problem, visited := Scan(store.kind.children, uid);
      if problem.Some? { return; }
      SafeDirectoryIsCleared(store.kind.children, uid);
      problem := ClearPrivateDirectory(path);
      assert stores == Cleared(old(stores), {path});
    }

    /** The residual loop of cleanup: it stops at the first refused store, with those before it cleared and the rest untouched. */
    method RemoveResiduals(paths: seq<string>) returns (problem: Option<Refusal>, done: nat)
      modifies this`stores
      ensures done <= |paths| && stores == Cleared(old(stores), Among(paths[..done]))
      ensures problem.None? <==> done == |paths|
      ensures forall i :: 0 <= i < done ==> Removable(old(stores), paths[i], uid)
      ensures problem.Some? ==> !Removable(old(stores), paths[done], uid)
    {
      assert paths[..0] == [] && stores == Cleared(stores, {});
      for i := 0 to |paths|
        invariant stores == Cleared(old(stores), Among(paths[..i]))
        invariant forall j :: 0 <= j < i ==> Removable(old(stores), paths[j], uid)
      {
        ghost var before := stores;
        assert paths[i] in paths;
        problem := RemoveResidual(paths[i], Among(paths));
        ClearedTwice(old(stores), Among(paths[..i]), paths[i], uid);
        if problem.Some? { return problem, i; }
        assert Among(paths[..i + 1]) == Among(paths[..i]) + {paths[i]};
      }
      assert paths[..|paths|] == paths;
      return None, |paths|;
    }
  }

  lemma ClearedEntryIsGone(owner: int, e: Entry, uid: int)
    requires ClearEntry(owner, e, uid).problem.None?
    ensures ClearEntry(owner, e, uid).rest == []
  {
    if e.kind.Directory? { TreesAreGone(owner, [e], uid); }
  }

  lemma {:induction false} TreesAreGone(owner: int, es: seq<Entry>, uid: int)
    requires RemoveTrees(owner, es, uid).problem.None?
    ensures RemoveTrees(owner, es, uid).rest == []
  {
    if es != [] { TreesAreGone(owner, es[1..], uid); }
  }

  /** Clearing one more store is clearing one larger set, and does not make another store acceptable or not. */
  lemma ClearedTwice(stores: map<string, Entry>, paths: set<string>, path: string, uid: int)
    requires forall p :: p in paths ==> Removable(stores, p, uid)
    ensures Cleared(Cleared(stores, paths), {path}) == Cleared(stores, paths + {path})
    ensures Removable(Cleared(stores, paths), path, uid) <==> Removable(stores, path, uid)
  {
  }
}
