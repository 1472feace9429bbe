/** The control plane's backup directory. Every backup is a pair of files, a
    database and its metadata; publishing and deleting a pair takes several
    atomic renames and removals, any of which may be the last one before a crash.
    `Cleanup` runs at the next start. */
module Backup {

  type Id = nat

  datatype File = Snapshot(bytes: nat) | Record(createdAt: int) | Partial

  /** The names the manager uses: `id.sqlite`, `id.json`, `.id.sqlite.tmp`,
      `.backup-metadata-*`, `.id.sqlite.deleting` and `.id.json.deleting`. */
  datatype Name = Db(id: Id) | Json(id: Id) | DbTemp(id: Id) | JsonTemp(id: Id) | DbTrash(id: Id) | JsonTrash(id: Id)

  type Dir = map<Name, File>

  /** The backups whose metadata is published. */
  function Published(d: Dir): set<Id> {
    set n | n in d && n.Json? :: n.id
  }

  predicate Complete(d: Dir, id: Id) {
    Db(id) in d && Json(id) in d
  }

  /** The files of complete pairs. */
  function Pairs(d: Dir): Dir {
    map n | n in d && (n.Db? || n.Json?) && Complete(d, n.id) :: d[n]
  }

  /** What an interrupted creation or deletion may leave behind: anything, except
      that published metadata has its database next to it and no deletion begun. */
  predicate Recoverable(d: Dir) {
    forall n :: n in d && n.Json? ==> Db(n.id) in d && DbTrash(n.id) !in d && JsonTrash(n.id) !in d
  }

  /** Backups whose deletion was begun and whose database is still in place. */
  function Torn(d: Dir): set<Id> {
    set n | n in d && n.JsonTrash? && Db(n.id) in d :: n.id
  }

  predicate OneTorn(d: Dir) {
    forall i, j :: i in Torn(d) && j in Torn(d) ==> i == j
  }

  datatype Item = Item(id: Id, createdAt: int)

  function Ids(items: seq<Item>): set<Id> {
    set i | 0 <= i < |items| :: items[i].id
  }

  /** A listing names every published backup once, newest first. Backups created
      at the same instant may come in either order. */
  predicate Lists(items: seq<Item>, d: Dir) {
    && Ids(items) == Published(d)
    && (forall i :: 0 <= i < |items| ==> Json(items[i].id) in d && d[Json(items[i].id)] == Record(items[i].createdAt))
    && (forall i, j :: 0 <= i < j < |items| ==> items[i].id != items[j].id && items[i].createdAt >= items[j].createdAt)
  }

  /** `d` is `d0` with some leftovers removed and every complete pair in place. */
  predicate Between(d: Dir, d0: Dir) {
    && (forall n :: n in d ==> n in d0 && d[n] == d0[n])
    && (forall n :: n in Pairs(d0) ==> n in d)
  }

  /** Cleaning up never changes which pairs there are. */
  lemma BetweenFacts(d: Dir, d0: Dir)
    requires Recoverable(d0) && Between(d, d0)
    ensures Recoverable(d) && Pairs(d) == Pairs(d0) && Published(d) == Published(d0) && Torn(d) <= Torn(d0)
  {
    forall n | n in d && n.Json? ensures Db(n.id) in d {
      assert Db(n.id) in Pairs(d0);
    }
    forall n | n in Pairs(d0) ensures n in Pairs(d) {
      assert Db(n.id) in Pairs(d0) && Json(n.id) in Pairs(d0);
    }
    forall id | id in Published(d0) ensures id in Published(d) {
      assert Json(id) in Pairs(d0);
    }
  }

  /** The directory after the cleanup loop has visited `name`; `names` is the
      directory as it was read before the loop. */
  function Visited(d: Dir, names: set<Name>, name: Name): Dir {
    match name
    case JsonTrash(id) => d - {Db(id), DbTrash(id), name}
    case DbTrash(id) =>
      if Json(id) !in names then d - {name}
      else if name in d then d[Db(id) := d[name]] - {name}
      else d
    case DbTemp(_) => d - {name}
    case JsonTemp(_) => d - {name}
    case Db(id) => if Json(id) in names then d else d - {name}
    case Json(id) => if Db(id) in names then d else d - {name}
  }

  /** The visit needs a file that is gone, and does not tolerate that. */
  predicate VisitFails(d: Dir, names: set<Name>, name: Name) {
    name !in d &&
    match name
    case JsonTrash(_) => false
    case DbTrash(id) => Json(id) in names
    case DbTemp(_) => true
    case JsonTemp(_) => true
    case Db(id) => Json(id) !in names
    case Json(id) => Db(id) !in names
  }

  /** The loop has visited all names of `d0` but `pending`. Of those only files
      whose deletion an earlier visit has finished can be gone. */
  predicate Sweep(d: Dir, d0: Dir, pending: set<Name>) {
    && pending <= d0.Keys && Between(d, d0)
    && (forall n :: n in pending && n !in d ==> (n.Db? || n.DbTrash?) && JsonTrash(n.id) in d0)
    && (forall n :: n in d && n !in pending ==> n in Pairs(d0))
  }

  lemma SweepStep(d: Dir, d0: Dir, pending: set<Name>, name: Name)
    requires Recoverable(d0) && Sweep(d, d0, pending) && name in pending
    ensures !VisitFails(d, d0.Keys, name) ==> Sweep(Visited(d, d0.Keys, name), d0, pending - {name})
    ensures VisitFails(d, d0.Keys, name) ==> Visited(d, d0.Keys, name) == d && Torn(d) < Torn(d0)
  {
    BetweenFacts(d, d0);
    if VisitFails(d, d0.Keys, name) {
      assert name.id in Torn(d0) && name.id !in Torn(d);
    }
  }

  /** A state inside one visit. */
  predicate Partway(h: Dir, d: Dir, d': Dir) {
    h == d' || (d'.Keys <= h.Keys <= d.Keys && forall n :: n in h ==> h[n] == d[n])
  }

  lemma {:induction false} SubsetSize<T>(a: set<T>, b: set<T>)
    requires a <= b
    ensures |a| <= |b| && (a != b ==> |a| < |b|)
  {
    if x :| x in a {
      SubsetSize(a - {x}, b - {x});
    }
  }

  /** The directory went through states between `d0` and its complete pairs only. */
  ghost predicate StaysBetween(earlier: seq<Dir>, later: seq<Dir>, d0: Dir) {
    earlier <= later && forall k :: |earlier| <= k < |later| ==> Between(later[k], d0)
  }

  lemma StaysBetweenJoins(a: seq<Dir>, b: seq<Dir>, c: seq<Dir>, d0: Dir)
    requires StaysBetween(a, b, d0) && StaysBetween(b, c, d0)
    ensures StaysBetween(a, c, d0)
  {
    assert forall k :: |a| <= k < |b| ==> c[k] == b[k];
  }

  /** A directory at rest: complete pairs with readable metadata, nothing else. */
  predicate Clean(d: Dir) {
    d == Pairs(d) && forall n :: n in d && n.Json? ==> d[n].Record?
  }

  /** A state a crash may leave: cleanup will accept it, at most one deletion is
      torn, and every complete pair has the files it has in `all`. */
  predicate CrashState(h: Dir, all: Dir) {
    && Recoverable(h) && OneTorn(h)
    && forall n :: n in Pairs(h) ==> n in all && h[n] == all[n]
  }

  /** The kept backups when one is added under a limit: the newest of the old ones. */
  function Kept(items: seq<Item>, maxBackups: nat): (kept: seq<Item>)
    requires maxBackups >= 1
  {
    if |items| < maxBackups then items else items[..maxBackups - 1]
  }

  /** The kept backups are as many as leave room for one more, and none of those that
      go is newer than one that stays. */
  lemma KeptAreNewest(items: seq<Item>, d: Dir, maxBackups: nat)
    requires maxBackups >= 1 && Lists(items, d)
    ensures
      var kept := Kept(items, maxBackups);
      && |kept| == (if |items| < maxBackups then |items| else maxBackups - 1)
      && (forall k :: k in kept ==> k in items)
      && forall k, other :: k in kept && other in items && other !in kept ==> k.createdAt >= other.createdAt
  {
    var kept := Kept(items, maxBackups);
    forall k, other | k in kept && other in items && other !in kept ensures k.createdAt >= other.createdAt {
      var i :| 0 <= i < |kept| && kept[i] == k;
      var gone := items[|kept|..];
      assert items == kept + gone;
      var j :| 0 <= j < |gone| && gone[j] == other;
      assert items[i] == k && items[|kept| + j] == other;
    }
  }

  lemma IdsAppend(items: seq<Item>, item: Item)
    ensures Ids(items + [item]) == Ids(items) + {item.id}
  {
    var all := items + [item];
    assert all[|items|] == item;
    forall id | id in Ids(items) ensures id in Ids(all) {
      var i :| 0 <= i < |items| && items[i].id == id;
      assert all[i].id == id;
    }
  }

  /** `h` is `d` with the backup `id` unpublished and everything else untouched. */
  ghost predicate Unpublished(h: Dir, d: Dir, id: Id) {
    && Json(id) !in h
    && forall n: Name :: n.id != id ==> (n in h <==> n in d) && (n in d ==> h[n] == d[n])
  }

  lemma UnpublishedIsCrashState(h: Dir, d: Dir, id: Id)
    requires Clean(d) && Unpublished(h, d, id)
    ensures CrashState(h, d) && Published(h) == Published(d) - {id}
  {
    forall n | n in h && n.id != id ensures n in Pairs(d) {}
    assert forall i :: i in Torn(h) ==> i == id;
    forall i ensures i in Published(h) <==> i in Published(d) - {id} {
      assert Json(i) in h <==> i in Published(h);
      assert Json(i) in d <==> i in Published(d);
    }
  }

  /** The states a deletion goes through. */
  function Deletion(d: Dir, id: Id): (states: seq<Dir>)
    requires Complete(d, id)
    ensures |states| == 4
  {
    var h1 := d[JsonTrash(id) := d[Json(id)]] - {Json(id)};
    var h2 := h1[DbTrash(id) := h1[Db(id)]] - {Db(id)};
    var h3 := h2 - {DbTrash(id)};
    [h1, h2, h3, h3 - {JsonTrash(id)}]
  }

  lemma DeletionUnpublishes(d: Dir, id: Id, k: nat)
    requires Complete(d, id) && k < 4
    ensures Unpublished(Deletion(d, id)[k], d, id)
  {
    var states := Deletion(d, id);
    assert Unpublished(states[0], d, id);
    assert Unpublished(states[1], d, id);
    assert Unpublished(states[2], d, id);
  }

  lemma DeletionEnds(d: Dir, id: Id)
    requires Clean(d) && Complete(d, id)
    ensures Deletion(d, id)[3] == d - {Db(id), Json(id)}
  {
    assert JsonTrash(id) !in Pairs(d) && DbTrash(id) !in Pairs(d);
  }

  /** One deletion out of a directory that is part of `all`. */
  lemma DeletionWithin(d: Dir, all: Dir, id: Id)
    requires Clean(d) && Complete(d, id) && forall n :: n in d ==> n in all && d[n] == all[n]
    ensures
      var states := Deletion(d, id);
      && Clean(states[3]) && (forall n :: n in states[3] ==> n in d && states[3][n] == d[n])
      && forall k :: 0 <= k < 4 ==> CrashState(states[k], all) && Published(states[k]) == Published(d) - {id}
  {
    var states := Deletion(d, id);
    forall k | 0 <= k < 4 ensures CrashState(states[k], all) && Published(states[k]) == Published(d) - {id} {
      DeletionUnpublishes(d, id, k);
      UnpublishedIsCrashState(states[k], d, id);
    }
    DeletionEnds(d, id);
    assert forall n :: n in states[3] ==> n in Pairs(d) && n.id != id;
    assert forall n :: n in states[3] ==> n in Pairs(states[3]);
  }

  lemma IdsSuffix(items: seq<Item>, index: nat)
    requires index < |items| && forall i, j :: 0 <= i < j < |items| ==> items[i].id != items[j].id
    ensures Ids(items[index..]) == Ids(items[index + 1..]) + {items[index].id}
    ensures items[index].id in Ids(items) && items[index].id !in Ids(items[index + 1..])
  {
    var tail := items[index + 1..];
    forall id | id in Ids(tail) ensures id in Ids(items[index..]) {
      var i :| 0 <= i < |tail| && tail[i].id == id;
      assert items[index..][i + 1].id == id;
    }
    assert items[index..][0] == items[index];
    forall id | id in Ids(items[index..]) && id != items[index].id ensures id in Ids(tail) {
      var i :| 0 <= i < |items[index..]| && items[index..][i].id == id;
      assert tail[i - 1].id == id;
    }
  }

  /** The states a creation goes through before retention is applied. */
  function Creation(d: Dir, id: Id, bytes: nat, createdAt: int): (states: seq<Dir>)
    ensures |states| == 6
  {
    var h1 := d[DbTemp(id) := Partial];
    var h2 := h1[DbTemp(id) := Snapshot(bytes)];
    var h3 := h2[Db(id) := h2[DbTemp(id)]] - {DbTemp(id)};
    var h4 := h3[JsonTemp(id) := Partial];
    var h5 := h4[JsonTemp(id) := Record(createdAt)];
    [h1, h2, h3, h4, h5, h5[Json(id) := h5[JsonTemp(id)]] - {JsonTemp(id)}]
  }

  /** The directory with one more backup. */
  function WithBackup(d: Dir, id: Id, bytes: nat, createdAt: int): Dir {
    d[Db(id) := Snapshot(bytes)][Json(id) := Record(createdAt)]
  }

  predicate Unused(d: Dir, id: Id) {
    forall n :: n in d ==> n.id != id
  }

  lemma CreationFacts(d: Dir, id: Id, bytes: nat, createdAt: int, k: nat)
    requires Clean(d) && Unused(d, id) && k < 6
    ensures
      var h := Creation(d, id, bytes, createdAt)[k];
      if k < 5 then CrashState(h, d) && Published(h) == Published(d) && (forall n :: n in d ==> n in h && h[n] == d[n])
      else h == WithBackup(d, id, bytes, createdAt)
  {
    var h := Creation(d, id, bytes, createdAt)[k];
    if k < 5 {
      UnpublishedIsCrashState(h, d, id);
      assert id !in Published(d);
    }
  }

  lemma PublishedAdds(d: Dir, all: Dir, id: Id)
    requires forall i :: Json(i) in all <==> Json(i) in d || i == id
    ensures Published(all) == Published(d) + {id}
  {
    forall i ensures i in Published(all) <==> i in Published(d) + {id} {
      assert Json(i) in all <==> i in Published(all);
      assert Json(i) in d <==> i in Published(d);
    }
  }

  lemma WithBackupFacts(d: Dir, id: Id, bytes: nat, createdAt: int)
    requires Clean(d) && Unused(d, id)
    ensures
      var all := WithBackup(d, id, bytes, createdAt);
      Clean(all) && Published(all) == Published(d) + {id} && CrashState(all, all)
  {
    var all := WithBackup(d, id, bytes, createdAt);
    PublishedAdds(d, all, id);
    assert forall n :: n in all ==> n in Pairs(all);
    assert Torn(all) == {};
  }

  predicate PartOf(d: Dir, all: Dir) {
    forall n :: n in d ==> n in all && d[n] == all[n]
  }

  lemma CrashStateOfPart(h: Dir, d: Dir, all: Dir)
    requires CrashState(h, d) && PartOf(d, all)
    ensures CrashState(h, all)
  {
  }

  /** The published backups while `id` is being created and older ones make room. */
  predicate DuringCreate(h: Dir, d: Dir, id: Id, kept: set<Id>) {
    if Json(id) in h then {id} + kept <= Published(h) <= {id} + Published(d)
    else Published(h) == Published(d)
  }

  lemma CreationState(d: Dir, id: Id, bytes: nat, createdAt: int, kept: set<Id>, k: nat)
    requires Clean(d) && Unused(d, id) && kept <= Published(d) && k < 6
    ensures CrashState(Creation(d, id, bytes, createdAt)[k], WithBackup(d, id, bytes, createdAt))
    ensures DuringCreate(Creation(d, id, bytes, createdAt)[k], d, id, kept)
  {
    var h := Creation(d, id, bytes, createdAt)[k];
    CreationFacts(d, id, bytes, createdAt, k);
    if k < 5 {
      CrashStateOfPart(h, d, WithBackup(d, id, bytes, createdAt));
    } else {
      WithBackupFacts(d, id, bytes, createdAt);
    }
  }

  lemma CreationStates(d: Dir, id: Id, bytes: nat, createdAt: int, kept: set<Id>)
    requires Clean(d) && Unused(d, id) && kept <= Published(d)
    ensures CrashState(d, WithBackup(d, id, bytes, createdAt)) && DuringCreate(d, d, id, kept)
    ensures forall k :: 0 <= k < 6 ==>
              && CrashState(Creation(d, id, bytes, createdAt)[k], WithBackup(d, id, bytes, createdAt))
              && DuringCreate(Creation(d, id, bytes, createdAt)[k], d, id, kept)
  {
    forall k | 0 <= k < 6
      ensures CrashState(Creation(d, id, bytes, createdAt)[k], WithBackup(d, id, bytes, createdAt))
      ensures DuringCreate(Creation(d, id, bytes, createdAt)[k], d, id, kept)
    {
      CreationState(d, id, bytes, createdAt, kept, k);
    }
    UnpublishedIsCrashState(d, d, id);
    CrashStateOfPart(d, d, WithBackup(d, id, bytes, createdAt));
  }

  lemma IdsConcat(a: seq<Item>, b: seq<Item>)
    ensures Ids(a + b) == Ids(a) + Ids(b)
  {
    forall id | id in Ids(a) ensures id in Ids(a + b) {
      var i :| 0 <= i < |a| && a[i].id == id;
      assert (a + b)[i].id == id;
    }
    forall id | id in Ids(b) ensures id in Ids(a + b) {
      var i :| 0 <= i < |b| && b[i].id == id;
      assert (a + b)[|a| + i].id == id;
    }
  }

  predicate Distinct(items: seq<Item>) {
    forall i, j :: 0 <= i < j < |items| ==> items[i].id != items[j].id
  }

  /** The kept backups and the pruned ones make up the listing. */
  lemma KeptIds(items: seq<Item>, maxBackups: nat)
    requires maxBackups >= 1 && Distinct(items)
    ensures Ids(items) - Ids(items[|Kept(items, maxBackups)|..]) == Ids(Kept(items, maxBackups))
  {
    var kept := Kept(items, maxBackups);
    var pruned := items[|kept|..];
    assert items == kept + pruned;
    IdsConcat(kept, pruned);
    forall i, j | 0 <= i < |kept| && 0 <= j < |pruned| ensures kept[i].id != pruned[j].id {
      assert items[i] == kept[i] && items[|kept| + j] == pruned[j];
    }
  }

  lemma DuringPrune(h: Dir, d: Dir, id: Id, items: seq<Item>, maxBackups: nat, left: set<Id>)
    requires maxBackups >= 1 && Distinct(items) && Ids(items) == Published(d) && id !in Published(d)
    requires left == Published(d) + {id} - Ids(items[|Kept(items, maxBackups)|..])
    requires left <= Published(h) <= Published(d) + {id}
    ensures left == {id} + Ids(Kept(items, maxBackups)) && DuringCreate(h, d, id, Ids(Kept(items, maxBackups)))
  {
    KeptIds(items, maxBackups);
    var pruned := items[|Kept(items, maxBackups)|..];
    assert Kept(items, maxBackups) + pruned == items;
    IdsConcat(Kept(items, maxBackups), pruned);
    assert id in Published(h);
  }

  lemma {:induction false} IdsSize(items: seq<Item>)
    requires forall i, j :: 0 <= i < j < |items| ==> items[i].id != items[j].id
    ensures |Ids(items)| == |items|
  {
    if items != [] {
      var rest := items[..|items| - 1];
      IdsSize(rest);
      assert Ids(items) == Ids(rest) + {items[|items| - 1].id};
    }
  }

  /** What a restart makes of a crash state: exactly the published backups, each
      with both files, after at most two runs of the cleanup (see
      `Manager.Restart`, which takes at most |Torn| + 1). */
  lemma CrashRecovery(h: Dir, all: Dir)
    requires CrashState(h, all)
    ensures |Torn(h)| <= 1
    ensures forall n :: n in Pairs(h) <==> (n.Db? || n.Json?) && n.id in Published(h)
    ensures forall n :: n in Pairs(h) ==> n in all && Pairs(h)[n] == all[n]
  {
    if id :| id in Torn(h) {
      SubsetSize(Torn(h), {id});
    }
    forall n: Name ensures n in Pairs(h) <==> (n.Db? || n.Json?) && n.id in Published(h) {
      assert Json(n.id) in h <==> n.id in Published(h);
    }
  }

  /** Creating a backup never leaves fewer complete pairs on disk than there were,
      up to the limit, and ends with one more, up to the limit. */
  lemma RetentionFloor(d: Dir, items: seq<Item>, h: Dir, id: Id, maxBackups: nat)
    requires maxBackups >= 1 && Lists(items, d) && id !in Published(d)
    requires DuringCreate(h, d, id, Ids(Kept(items, maxBackups)))
    ensures |items| == |Published(d)|
    ensures |Published(h)| >= if |items| <= maxBackups then |items| else maxBackups
    ensures |{id} + Ids(Kept(items, maxBackups))| == if |items| < maxBackups then |items| + 1 else maxBackups
  {
    var kept := Kept(items, maxBackups);
    IdsSize(items);
    IdsSize(kept);
    IdsConcat(kept, items[|kept|..]);
    assert kept + items[|kept|..] == items;
    assert |{id} + Ids(kept)| == 1 + |Ids(kept)|;
    if Json(id) in h {
      SubsetSize({id} + Ids(kept), Published(h));
    }
  }

  /** Why `Recoverable` asks what it asks: undoing a failed deletion passes through
      a state with published metadata whose database is still in the trash. Either
      visiting order restores the database and removes the metadata, and the next
      cleanup removes the database too. */
  lemma UndoStateLosesBackup(id: Id, record: File, database: File)
    ensures
      var d := map[Json(id) := record, DbTrash(id) := database];
      var restored := map[Db(id) := database];
      && !Recoverable(d)
      && Visited(Visited(d, d.Keys, Json(id)), d.Keys, DbTrash(id)) == restored
      && Visited(Visited(d, d.Keys, DbTrash(id)), d.Keys, Json(id)) == restored
      && !VisitFails(d, d.Keys, DbTrash(id)) && !VisitFails(d, d.Keys, Json(id))
      && Visited(restored, restored.Keys, Db(id)) == map[]
  {
    var d := map[Json(id) := record, DbTrash(id) := database];
    assert DbTrash(id) in d;
  }

  /** What is being done when the crash comes. */
  datatype Work = Creating(id: Id, createdAt: int, bytes: nat, snapshotOk: bool) | Deleting(id: Id)

  predicate Possible(work: Work, d: Dir) {
    match work
    case Creating(id, _, _, _) => Unused(d, id)
    case Deleting(id) => Complete(d, id)
  }

  /** All the pairs there are before or after. */
  function Involved(work: Work, d: Dir): Dir {
    match work
    case Creating(id, createdAt, bytes, _) => WithBackup(d, id, bytes, createdAt)
    case Deleting(_) => d
  }

  /** The backups that the state `h`, in the middle of work begun in `d`, has
      published: the old ones, less the deletion if it has begun, or some that make
      room for a new one once that is published. */
  ghost predicate Underway(work: Work, d: Dir, h: Dir, maxBackups: nat)
    requires maxBackups >= 1
  {
    match work
    case Creating(id, _, _, _) => exists items ::
      Lists(items, d) && DuringCreate(h, d, id, Ids(Kept(items, maxBackups)))
    case Deleting(id) => Published(h) == if Json(id) in h then Published(d) else Published(d) - {id}
  }

  lemma FloorHolds(work: Work, d: Dir, h: Dir, maxBackups: nat)
    requires Clean(d) && Possible(work, d) && maxBackups >= 1 && Underway(work, d, h, maxBackups)
    ensures work.Creating? ==>
      |Published(h)| >= if |Published(d)| <= maxBackups then |Published(d)| else maxBackups
  {
    if work.Creating? {
      var items :| Lists(items, d) && DuringCreate(h, d, work.id, Ids(Kept(items, maxBackups)));
      RetentionFloor(d, items, h, work.id, maxBackups);
    }
  }

  /** Where a cleanup that a further crash cuts short leaves a crash state. */
  lemma StillCrashState(h: Dir, cut: Dir, all: Dir)
    requires CrashState(h, all) && Between(cut, h)
    ensures CrashState(cut, all) && Pairs(cut) == Pairs(h) && Published(cut) == Published(h)
  {
    BetweenFacts(cut, h);
  }

  /** A crash state has at most one torn deletion, and a cleanup that gets through
      makes it exactly its published backups. */
  lemma Cleaned(h: Dir, all: Dir)
    requires CrashState(h, all)
    ensures |Torn(h)| <= 1
    ensures Pairs(Pairs(h)) == Pairs(h) && Published(Pairs(h)) == Published(h) && PartOf(Pairs(h), all)
  {
    CrashRecovery(h, all);
    forall id ensures id in Published(Pairs(h)) <==> id in Published(h) {
      assert Json(id) in h <==> id in Published(h);
      assert Json(id) in Pairs(h) <==> id in Published(Pairs(h));
    }
  }

  class Manager {
    var files: Dir
    const maxBackups: nat
    /** Every state the directory has been in, one per atomic operation. The program
        keeps no such record; it is what a crash can be picked from. */
    var history: seq<Dir>

    constructor (files: Dir, maxBackups: nat)
      requires maxBackups >= 1
      ensures this.files == files && this.maxBackups == maxBackups && history == [files]
    {
      this.files := files;
      this.maxBackups := maxBackups;
      history := [files];
    }

    method Write(name: Name, file: File)
      modifies this
      ensures files == old(files)[name := file] && history == old(history) + [files]
    {
      files := files[name := file];
      history := history + [files];
    }

    method Rename(source: Name, target: Name) returns (ok: bool)
      requires source != target
      modifies this
      ensures ok == (source in old(files))
      ensures ok ==> files == old(files)[target := old(files)[source]] - {source} && history == old(history) + [files]
      ensures !ok ==> files == old(files) && history == old(history)
    {
      ok := source in files;
      if ok {
        files := files[target := files[source]] - {source};
        history := history + [files];
      }
    }

    method Remove(name: Name) returns (ok: bool)
      modifies this
      ensures ok == (name in old(files))
      ensures files == old(files) - {name}
      ensures history == if ok then old(history) + [files] else old(history)
    {
      ok := name in files;
      if ok {
        files := files - {name};
        history := history + [files];
      }
    }

    /** One visit of the cleanup loop. */
    method Visit(name: Name, names: set<Name>) returns (ok: bool)
      modifies this
      ensures files == Visited(old(files), names, name) && ok == !VisitFails(old(files), names, name)
      ensures |history| >= |old(history)| && history[..|old(history)|] == old(history)
      ensures forall k :: |old(history)| <= k < |history| ==> Partway(history[k], old(files), files)
    {
      match name
      case JsonTrash(id) =>
        var removed := Remove(Db(id));
        removed := Remove(DbTrash(id));
        removed := Remove(name);
        return true;
      case DbTrash(id) =>
        if Json(id) in names {
          ok := Rename(name, Db(id));
        } else {
          var removed := Remove(name);
          return true;
        }
      case DbTemp(_) => ok := Remove(name);
      case JsonTemp(_) => ok := Remove(name);
      case Db(id) =>
        ok := true;
        if Json(id) !in names { ok := Remove(name); }
      case Json(id) =>
        ok := true;
        if Db(id) !in names { ok := Remove(name); }
    }

    /** One visit as part of a cleanup of what was `d0`. */
    method VisitNext(name: Name, names: set<Name>, ghost d0: Dir, ghost pending: set<Name>) returns (ok: bool)
      requires Recoverable(d0) && names == d0.Keys && Sweep(files, d0, pending) && name in pending
      modifies this
      ensures Recoverable(files) && Pairs(files) == Pairs(d0)
      ensures if ok then Sweep(files, d0, pending - {name}) else Torn(files) < Torn(d0)
      ensures StaysBetween(old(history), history, d0)
    {
      SweepStep(files, d0, pending, name);
      ok := Visit(name, names);
      BetweenFacts(files, d0);
    }

    /** Startup cleanup, visiting the names in an arbitrary order. When it fails,
        it has still finished a torn deletion that was there before. */
    method Cleanup() returns (ok: bool)
      requires Recoverable(files)
      modifies this
      ensures Recoverable(files) && Pairs(files) == Pairs(old(files))
      ensures ok ==> files == Pairs(old(files))
      ensures !ok ==> Torn(files) < Torn(old(files))
      ensures StaysBetween(old(history), history, old(files))
    {
      ghost var d0 := files;
      var names := files.Keys;
      var pending := names;
      while pending != {}
        invariant Sweep(files, d0, pending) && Recoverable(files) && Pairs(files) == Pairs(d0)
        invariant StaysBetween(old(history), history, d0)
        decreases pending
      {
        var name :| name in pending;
        ghost var earlier := history;
        ok := VisitNext(name, names, d0, pending);
        StaysBetweenJoins(old(history), earlier, history, d0);
        if !ok { return; }
        pending := pending - {name};
      }
      assert files == Pairs(d0);
      ok := true;
    }

    /** Restarts repeat the cleanup until it succeeds. */
    method Restart() returns (runs: nat)
      requires Recoverable(files)
      modifies this
      ensures files == Pairs(old(files))
      ensures 1 <= runs <= |Torn(old(files))| + 1
    {
      runs := 1;
      var ok := Cleanup();
      SubsetSize(Torn(files), Torn(old(files)));
      while !ok
        invariant Recoverable(files) && Pairs(files) == Pairs(old(files))
        invariant ok ==> files == Pairs(old(files))
        invariant Torn(files) <= Torn(old(files))
        invariant runs + |Torn(files)| <= |Torn(old(files))| + if ok then 1 else 0
        decreases Torn(files), !ok
      {
        ghost var before := Torn(files);
        runs := runs + 1;
        ok := Cleanup();
        SubsetSize(Torn(files), before);
        assert ok ==> Torn(files) == {};
      }
    }

    method Newest(remaining: set<Id>) returns (id: Id)
      requires remaining != {} && forall i :: i in remaining ==> Json(i) in files && files[Json(i)].Record?
      ensures id in remaining
      ensures forall i :: i in remaining ==> files[Json(i)].createdAt <= files[Json(id)].createdAt
    {
      id :| id in remaining;
      var rest := remaining - {id};
      while rest != {}
        invariant rest <= remaining && id in remaining
        invariant forall i :: i in remaining - rest ==> files[Json(i)].createdAt <= files[Json(id)].createdAt
        decreases rest
      {
        var i :| i in rest;
        if files[Json(i)].createdAt > files[Json(id)].createdAt {
          id := i;
        }
        rest := rest - {i};
      }
    }

    /** The listing; refused when a published file lacks its counterpart. */
    method List() returns (items: seq<Item>, ok: bool)
      ensures ok <==> forall n :: n in files && (n.Db? || n.Json?) ==>
                        Complete(files, n.id) && files[Json(n.id)].Record?
      ensures ok ==> Lists(items, files)
    {
      items := [];
      ok := forall n :: n in files && (n.Db? || n.Json?) ==> Complete(files, n.id) && files[Json(n.id)].Record?;
      if !ok { return; }
      var remaining := Published(files);
      while remaining != {}
        invariant remaining <= Published(files) && Ids(items) == Published(files) - remaining
        invariant forall i :: 0 <= i < |items| ==>
          Json(items[i].id) in files && files[Json(items[i].id)] == Record(items[i].createdAt)
        invariant forall i, r :: 0 <= i < |items| && r in remaining ==> items[i].createdAt >= files[Json(r)].createdAt
        invariant forall i, j :: 0 <= i < j < |items| ==>
          items[i].id != items[j].id && items[i].createdAt >= items[j].createdAt
        decreases remaining
      {
        var id := Newest(remaining);
        ghost var listed := items;
        items := items + [Item(id, files[Json(id)].createdAt)];
        remaining := remaining - {id};
        IdsAppend(listed, items[|listed|]);
      }
    }

    /** Deleting a backup: metadata out of the way first, then the database. */
    method DeleteLocked(id: Id)
      requires Complete(files, id)
      modifies this
      ensures history == old(history) + Deletion(old(files), id)
      ensures files == Deletion(old(files), id)[3]
    {
      var staged := Rename(Json(id), JsonTrash(id));
      staged := Rename(Db(id), DbTrash(id));
      var removed := Remove(DbTrash(id));
      removed := Remove(JsonTrash(id));
    }

    /** Retention is a rolling window: the oldest backups beyond the limit go. */
    method PruneOldestLocked(previous: seq<Item>)
      requires Clean(files) && maxBackups >= 1
      requires Ids(previous) <= Published(files)
      requires forall i, j :: 0 <= i < j < |previous| ==> previous[i].id != previous[j].id
      modifies this
      ensures Clean(files) && Published(files) == Published(old(files)) - Ids(previous[|Kept(previous, maxBackups)|..])
      ensures forall n :: n in files ==> n in old(files) && files[n] == old(files)[n]
      ensures |history| >= |old(history)| && history[..|old(history)|] == old(history)
      ensures forall k :: |old(history)| <= k < |history| ==>
                && CrashState(history[k], old(files))
                && Published(files) <= Published(history[k]) <= Published(old(files))
    {
      ghost var kept := |Kept(previous, maxBackups)|;
      var excess := |previous| + 1 - maxBackups;
      var index := |previous| - 1;
      assert previous[index + 1..] == [];
      while index >= 0 && excess > 0
        invariant -1 <= index < |previous|
        invariant excess == index + 2 - maxBackups
        invariant kept <= index + 1
        invariant Clean(files) && Published(files) == Published(old(files)) - Ids(previous[index + 1..])
        invariant forall n :: n in files ==> n in old(files) && files[n] == old(files)[n]
        invariant |history| >= |old(history)| && history[..|old(history)|] == old(history)
        invariant forall k :: |old(history)| <= k < |history| ==>
                    && CrashState(history[k], old(files))
                    && Published(files) <= Published(history[k]) <= Published(old(files))
        decreases index
      {
        IdsSuffix(previous, index);
        assert previous[index].id in Published(files);
        DeletionWithin(files, old(files), previous[index].id);
        ghost var earlier := history;
        DeleteLocked(previous[index].id);
        assert history[..|old(history)|] == earlier[..|old(history)|];
        index := index - 1;
        excess := excess - 1;
      }
      assert index + 1 == kept;
    }

    /** Taking the snapshot and publishing it, metadata last. */
    method Publish(id: Id, createdAt: int, bytes: nat, snapshotOk: bool)
      requires Unused(files, id)
      modifies this
      ensures
        var states := Creation(old(files), id, bytes, createdAt);
        history == old(history) + if snapshotOk then states else states[..2] + [old(files)]
      ensures files == if snapshotOk then Creation(old(files), id, bytes, createdAt)[5] else old(files)
    {
      ghost var d := files;
      Write(DbTemp(id), Partial);
      Write(DbTemp(id), Snapshot(bytes));
      if !snapshotOk {
        var removed := Remove(DbTemp(id));
        assert files == d;
        ghost var states := Creation(d, id, bytes, createdAt);
        assert history == old(history) + [states[0], states[1], d];
        assert states[..2] == [states[0], states[1]];
        return;
      }
      var published := Rename(DbTemp(id), Db(id));
      Write(JsonTemp(id), Partial);
      Write(JsonTemp(id), Record(createdAt));
      published := Rename(JsonTemp(id), Json(id));
    }

    /** Creating a backup under a rolling retention window. Every state the
        directory passes through is one that cleanup turns into complete pairs:
        the old backups until the new metadata is published, and from then on the
        new one and at least the kept ones. */
    method Create(id: Id, createdAt: int, bytes: nat, snapshotOk: bool) returns (ok: bool, items: seq<Item>)
      requires Clean(files) && Unused(files, id) && maxBackups >= 1
      modifies this
      ensures Clean(files) && Lists(items, old(files))
      ensures ok == snapshotOk && (!ok ==> files == old(files))
      ensures ok ==> Published(files) == {id} + Ids(Kept(items, maxBackups))
      ensures ok ==> Json(id) in files && files[Json(id)] == Record(createdAt)
      ensures ok ==> Db(id) in files && files[Db(id)] == Snapshot(bytes)
      ensures PartOf(files, WithBackup(old(files), id, bytes, createdAt))
      ensures |history| >= |old(history)| && history[..|old(history)|] == old(history)
      ensures forall k :: |old(history)| <= k < |history| ==>
                && CrashState(history[k], WithBackup(old(files), id, bytes, createdAt))
                && DuringCreate(history[k], old(files), id, Ids(Kept(items, maxBackups)))
    {
      ghost var d, all := files, WithBackup(files, id, bytes, createdAt);
      WithBackupFacts(d, id, bytes, createdAt);
      items, ok := List();
      assert ok by { assert forall n :: n in files ==> n in Pairs(files); }
      CreationStates(d, id, bytes, createdAt, Ids(Kept(items, maxBackups)));
      Publish(id, createdAt, bytes, snapshotOk);
      ok := snapshotOk;
      if !ok { return; }
      ghost var published := history;
      assert files == all by { CreationFacts(d, id, bytes, createdAt, 5); }
      Rotate(items, d, id);
      forall k | |old(history)| <= k < |published|
        ensures history[k] == Creation(d, id, bytes, createdAt)[k - |old(history)|]
      {
        assert history[k] == published[k];
      }
      assert history[..|old(history)|] == published[..|old(history)|];
      assert Json(id) in files by { assert id in Published(files); }
      assert Json(id) in Pairs(files) && Db(id) in files;
    }

    /** Retention after publishing `id` in a directory that was `d` before. */
    method Rotate(items: seq<Item>, ghost d: Dir, ghost id: Id)
      requires Clean(files) && maxBackups >= 1 && Published(files) == Published(d) + {id} && id !in Published(d)
      requires Distinct(items) && Ids(items) == Published(d)
      modifies this
      ensures Clean(files) && Published(files) == {id} + Ids(Kept(items, maxBackups)) && PartOf(files, old(files))
      ensures |history| >= |old(history)| && history[..|old(history)|] == old(history)
      ensures forall k :: |old(history)| <= k < |history| ==>
                && CrashState(history[k], old(files))
                && DuringCreate(history[k], d, id, Ids(Kept(items, maxBackups)))
    {
      PruneOldestLocked(items);
      DuringPrune(files, d, id, items, maxBackups, Published(files));
      forall k | |old(history)| <= k < |history|
        ensures DuringCreate(history[k], d, id, Ids(Kept(items, maxBackups)))
      {
        DuringPrune(history[k], d, id, items, maxBackups, Published(files));
      }
    }

    /** Does the work; any state on the way is one that a crash may leave. */
    method Perform(work: Work)
      requires Clean(files) && Possible(work, files) && maxBackups >= 1
      modifies this
      ensures |history| >= |old(history)| && history[..|old(history)|] == old(history)
      ensures CrashState(old(files), Involved(work, old(files))) && Underway(work, old(files), old(files), maxBackups)
      ensures forall k :: |old(history)| <= k < |history| ==>
                CrashState(history[k], Involved(work, old(files))) && Underway(work, old(files), history[k], maxBackups)
    {
      ghost var d := files;
      match work {
        case Creating(id, createdAt, bytes, snapshotOk) =>
          var ok, items := Create(id, createdAt, bytes, snapshotOk);
          CreationStates(d, id, bytes, createdAt, Ids(Kept(items, maxBackups)));
        case Deleting(id) =>
          DeletionWithin(d, d, id);
          assert CrashState(d, d) by { assert forall n :: n in d ==> n in Pairs(d); }
          DeleteLocked(id);
          forall k | |old(history)| <= k < |history|
            ensures CrashState(history[k], d) && Underway(work, d, history[k], maxBackups)
          {
            var state := Deletion(d, id)[k - |old(history)|];
            assert history[k] == state;
            assert Json(id) in state <==> id in Published(state);
          }
      }
    }

    /** A creation or deletion that a crash cuts short anywhere, startup cleanups that
        further crashes cut short anywhere, and a restart that nothing cuts short:
        it takes at most two runs of the cleanup, and leaves exactly the complete
        pairs that were published when the first crash came. `crash` and `cuts`
        pick the places. */
    method CrashAndRestart(work: Work, crash: nat, cuts: seq<nat>) returns (runs: nat, ghost h: Dir)
      requires Clean(files) && Possible(work, files) && maxBackups >= 1
      modifies this
      ensures 1 <= runs <= 2
      ensures Underway(work, old(files), h, maxBackups)
      ensures files == Pairs(files) && Published(files) == Published(h) && PartOf(files, Involved(work, old(files)))
      ensures work.Creating? ==>
        |Published(files)| >= if |Published(old(files))| <= maxBackups then |Published(old(files))| else maxBackups
    {
      ghost var d, all := files, Involved(work, files);
      var before := |history|;
      var untouched := files;
      Perform(work);
      files := if |history| == before then untouched else history[before + crash % (|history| - before)];
      h := files;
      FloorHolds(work, d, h, maxBackups);
      for i := 0 to |cuts|
        invariant CrashState(files, all) && Pairs(files) == Pairs(h)
      {
        var begun, uncut := |history|, files;
        var _ := Cleanup();
        files := if |history| == begun then uncut else history[begun + cuts[i] % (|history| - begun)];
        StillCrashState(uncut, files, all);
      }
      Cleaned(files, all);
      Cleaned(h, all);
      runs := Restart();
    }
  }
}
