/**
 * NimBLEBondMigration.h: the migration itself, over a store whose every call may
 * fail.  Whatever it stops at, the store is a whole number of entries along.
 */
module BondMigration {
  import opened Base
  import opened BondSpec

  function Inc(x: UInt16): UInt16 { (x + 1) % 0x1_0000 }

  class BondStore {
    var store: Store
    var calls: nat              // calls made so far
    const works: nat -> bool    // whether the n-th call succeeds
    var stats: Stats
    var commits: nat
    ghost var faults: nat       // calls that failed

    constructor (store: Store, works: nat -> bool)
      ensures this.store == store && this.works == works && stats == NO_STATS && commits == 0 && faults == 0
    {
      this.store, this.works, calls, stats, commits, faults := store, works, 0, NO_STATS, 0, 0;
    }

    method Call() returns (ok: bool)
      modifies `calls, `faults
      ensures ok == works(old(calls)) && calls == old(calls) + 1
      ensures faults == old(faults) + if ok then 0 else 1
    {
      ok := works(calls);
      calls := calls + 1;
      if !ok { faults := faults + 1; }
    }

    method SetBlob(key: string, blob: Blob) returns (ok: bool)
      modifies `store, `calls, `faults
      ensures store == if ok then old(store)[key := blob] else old(store)
      ensures ok == works(old(calls)) && calls == old(calls) + 1
      ensures faults == old(faults) + if ok then 0 else 1
    {
      ok := Call();
      if ok { store := store[key := blob]; }
    }

    method EraseKey(key: string) returns (ok: bool)
      modifies `store, `calls, `faults
      ensures store == if ok then old(store) - {key} else old(store)
      ensures ok == works(old(calls)) && calls == old(calls) + 1
      ensures faults == old(faults) + if ok then 0 else 1
    {
      ok := Call();
      if ok { store := store - {key}; }
    }

    method MigrateEntryToCurrent(name: Name) returns (ok: bool)
      modifies this
      ensures store == if ok then Apply(old(store), ToCurrent(name)) else old(store)
      ensures ok ==> stats == Tally(old(stats), ToCurrent(name), Get(old(store), KeyOf(name)))
      ensures old(faults) <= faults && (ok <==> faults == old(faults)) && commits == old(commits)
    {
      var key := KeyOf(name);
      var read := Call();
      if !read { return false; }
      if key !in store { return true; }
      stats := stats.(scanned := Inc(stats.scanned));
      if store[key].Current? {
        stats := stats.(alreadyTarget := Inc(stats.alreadyTarget));
        return true;
      }
      if !store[key].V1? {
        stats := stats.(skippedUnknownSize := Inc(stats.skippedUnknownSize));
        return true;
      }
      read := Call();
      if !read { return false; }
      var v := store[key].v1;
      ok := SetBlob(key, Current(SecCurrent(v.peer, name.index, v.trust, v.keys, 0)));
      if ok { stats := stats.(converted := Inc(stats.converted)); }
    }

    method MigrateEntryToV1(name: Name) returns (ok: bool)
      modifies this
      ensures store == if ok then Apply(old(store), ToV1(name)) else old(store)
      ensures ok ==> stats == Tally(old(stats), ToV1(name), Get(old(store), KeyOf(name)))
      ensures old(faults) <= faults && (ok <==> faults == old(faults)) && commits == old(commits)
    {
      var key := KeyOf(name);
      var read := Call();
      if !read { return false; }
      if key !in store { return true; }
      stats := stats.(scanned := Inc(stats.scanned));
      if store[key].V1? {
        stats := stats.(alreadyTarget := Inc(stats.alreadyTarget));
        return true;
      }
      if !store[key].Current? {
        stats := stats.(skippedUnknownSize := Inc(stats.skippedUnknownSize));
        return true;
      }
      read := Call();
      if !read { return false; }
      var c := store[key].current;
      ok := SetBlob(key, V1(SecV1(c.peer, c.trust, c.keys)));
      if ok { stats := stats.(converted := Inc(stats.converted)); }
    }

    /** Whatever was there, of whatever size, the default takes its place. */
    method MigrateLocalIrkEntryToCurrent(name: Name) returns (ok: bool)
      modifies this
      ensures store == if ok then Apply(old(store), IrkToCurrent(name)) else old(store)
      ensures ok ==> stats == Tally(old(stats), IrkToCurrent(name), Get(old(store), KeyOf(name)))
      ensures old(faults) <= faults && (ok <==> faults == old(faults)) && commits == old(commits)
    {
      var key := KeyOf(name);
      var read := Call();
      if !read { return false; }
      if key in store {
        stats := stats.(scanned := Inc(stats.scanned));
        if !store[key].IrkCurrent? && !store[key].IrkV1? && store[key] != Other([]) {
          stats := stats.(skippedUnknownSize := Inc(stats.skippedUnknownSize));
        }
      }
      ok := SetBlob(key, DEFAULT_LOCAL_IRK);
      if ok { stats := stats.(converted := Inc(stats.converted)); }
    }

    method MigrateLocalIrkEntryToV1(name: Name) returns (ok: bool)
      modifies this
      ensures store == if ok then Apply(old(store), IrkErase(name)) else old(store)
      ensures ok ==> stats == Tally(old(stats), IrkErase(name), Get(old(store), KeyOf(name)))
      ensures old(faults) <= faults && (ok <==> faults == old(faults)) && commits == old(commits)
    {
      var key := KeyOf(name);
      var read := Call();
      if !read { return false; }
      if key !in store { return true; }
      stats := stats.(scanned := Inc(stats.scanned));
      ok := EraseKey(key);
      if ok { stats := stats.(converted := Inc(stats.converted)); }
    }

    method MigrateSecEntry(toCurrent: bool, name: Name) returns (ok: bool)
      modifies this
      ensures store == if ok then Apply(old(store), if toCurrent then ToCurrent(name) else ToV1(name)) else old(store)
      ensures ok ==> stats == Tally(old(stats), if toCurrent then ToCurrent(name) else ToV1(name), Get(old(store), KeyOf(name)))
      ensures old(faults) <= faults && (ok <==> faults == old(faults)) && commits == old(commits)
    {
      if toCurrent { ok := MigrateEntryToCurrent(name); } else { ok := MigrateEntryToV1(name); }
    }

    /**
     * `migrateBondStore`.  With 65535 entries its uint16_t counter would never pass
     * the end.  `done` is how many entries it got through.  It succeeds if and only if no call
     * of the store failed.
     */
    method MigrateBondStore(toCurrent: bool, maxEntries: UInt16, ghost plan: seq<Step>) returns (ok: bool, ghost done: nat)
      requires maxEntries < 0xffff && plan == Plan(toCurrent, maxEntries)
      modifies this
      ensures done <= |plan| && store == ApplyAll(old(store), plan[..done])
      ensures ok ==> done == |plan| && stats == TallyAll(old(store), plan)
      ensures old(faults) <= faults && (ok <==> faults == old(faults))
      ensures commits == old(commits) + if ok && stats.converted != 0 then 1 else 0
    {
      done := 0;
      var handle := Call();
      if !handle { return false, done; }
      stats := NO_STATS;
      ok, done := MigrateOpened(toCurrent, maxEntries, plan);
    }

    /** The store is so many entries along, and all counted if this went through. */
    ghost predicate Along(was: Store, plan: seq<Step>, done: nat, ok: bool)
      reads `store, `stats
    {
      done <= |plan| && store == ApplyAll(was, plan[..done]) && (ok ==> done == |plan| && stats == TallyAll(was, plan))
    }

    /** The same once the store is open. */
    method MigrateOpened(toCurrent: bool, maxEntries: UInt16, ghost plan: seq<Step>) returns (ok: bool, ghost done: nat)
      requires maxEntries < 0xffff && plan == Plan(toCurrent, maxEntries) && stats == NO_STATS
      modifies this
      ensures Along(old(store), plan, done, ok)
      ensures old(faults) <= faults && (ok <==> faults == old(faults))
      ensures commits == old(commits) + if ok && stats.converted != 0 then 1 else 0
    {
      ok, done := MigrateEntries(toCurrent, maxEntries, plan);
      if ok { ok := CommitChanges(); }
    }

    method CommitChanges() returns (ok: bool)
      modifies `calls, `faults, `commits
      ensures old(faults) <= faults && (ok <==> faults == old(faults))
      ensures commits == old(commits) + (if ok && stats.converted != 0 then 1 else 0)
    {
      if stats.converted > 0 {
        ok := Call();
        if ok { commits := commits + 1; }
      } else {
        ok := true;
      }
    }

    /** The entries, one after the other. */
    method MigrateEntries(toCurrent: bool, maxEntries: UInt16, ghost plan: seq<Step>) returns (ok: bool, ghost done: nat)
      requires maxEntries < 0xffff && stats == NO_STATS && plan == Plan(toCurrent, maxEntries)
      modifies this
      ensures Along(old(store), plan, done, ok)
      ensures old(faults) <= faults && (ok <==> faults == old(faults)) && commits == old(commits)
    {
      ok, done := MigrateSecurity(toCurrent, maxEntries);
      if !ok { return; }
      if toCurrent {
        PlanAt(toCurrent, maxEntries, done);
        ok, done := DefaultPlanned(Name(LocalIrk, 1), old(store), plan, done);
      } else {
        ok, done := EraseIrks(maxEntries, old(store));
      }
      if ok { assert plan[..done] == plan; }
    }

    method DefaultPlanned(name: Name, ghost was: Store, ghost plan: seq<Step>, ghost k: nat)
      returns (ok: bool, ghost done: nat)
      requires k < |plan| && plan[k] == IrkToCurrent(name) && store == ApplyAll(was, plan[..k])
      requires stats == TallyAll(was, plan[..k])
      modifies this
      ensures done == (if ok then k + 1 else k) && store == ApplyAll(was, plan[..done])
      ensures ok ==> stats == TallyAll(was, plan[..done])
      ensures old(faults) <= faults && (ok <==> faults == old(faults)) && commits == old(commits)
    {
      ok := MigrateLocalIrkEntryToCurrent(name);
      ApplyNext(was, plan, k);
      TallyNext(was, plan, k);
      done := if ok then k + 1 else k;
    }

    /** The loop over both security records of each slot. */
    method MigrateSecurity(toCurrent: bool, maxEntries: UInt16) returns (ok: bool, ghost done: nat)
      requires maxEntries < 0xffff && stats == NO_STATS
      modifies this
      ensures done <= 2 * maxEntries <= |Plan(toCurrent, maxEntries)| && (ok ==> done == 2 * maxEntries)
      ensures store == ApplyAll(old(store), Plan(toCurrent, maxEntries)[..done])
      ensures ok ==> stats == TallyAll(old(store), Plan(toCurrent, maxEntries)[..done])
      ensures old(faults) <= faults && (ok <==> faults == old(faults)) && commits == old(commits)
    {
      ghost var plan := Plan(toCurrent, maxEntries);
      done := 0;
      var i: UInt16 := 1;
      while i <= maxEntries
        invariant 1 <= i <= maxEntries + 1 && done == 2 * (i - 1)
        invariant store == ApplyAll(old(store), plan[..done]) && stats == TallyAll(old(store), plan[..done])
        invariant faults == old(faults) && commits == old(commits)
        decreases maxEntries + 1 - i
      {
        SlotAt(toCurrent, maxEntries, i);
        ok, done := MigratePlanned(toCurrent, Name(OurSec, i), old(store), plan, done);
        if !ok { return; }
        ok, done := MigratePlanned(toCurrent, Name(PeerSec, i), old(store), plan, done);
        if !ok { return; }
        i := i + 1;
      }
      ok := true;
    }

    method MigratePlanned(toCurrent: bool, name: Name, ghost was: Store, ghost plan: seq<Step>, ghost k: nat)
      returns (ok: bool, ghost done: nat)
      requires k < |plan| && plan[k] == (if toCurrent then ToCurrent(name) else ToV1(name))
      requires store == ApplyAll(was, plan[..k]) && stats == TallyAll(was, plan[..k])
      modifies this
      ensures done == (if ok then k + 1 else k) && store == ApplyAll(was, plan[..done])
      ensures ok ==> stats == TallyAll(was, plan[..done])
      ensures old(faults) <= faults && (ok <==> faults == old(faults)) && commits == old(commits)
    {
      ok := MigrateSecEntry(toCurrent, name);
      ApplyNext(was, plan, k);
      TallyNext(was, plan, k);
      done := if ok then k + 1 else k;
    }

    /** The loop that erases the local identity keys; `was` is the store the run began with. */
    method EraseIrks(maxEntries: UInt16, ghost was: Store) returns (ok: bool, ghost done: nat)
      requires maxEntries < 0xffff && store == ApplyAll(was, Plan(false, maxEntries)[..2 * maxEntries])
      requires stats == TallyAll(was, Plan(false, maxEntries)[..2 * maxEntries])
      modifies this
      ensures done <= |Plan(false, maxEntries)| && (ok ==> done == |Plan(false, maxEntries)|)
      ensures store == ApplyAll(was, Plan(false, maxEntries)[..done])
      ensures ok ==> stats == TallyAll(was, Plan(false, maxEntries)[..done])
      ensures old(faults) <= faults && (ok <==> faults == old(faults)) && commits == old(commits)
    {
      ghost var plan := Plan(false, maxEntries);
      done := 2 * maxEntries;
      var i: UInt16 := 1;
      while i <= maxEntries
        invariant 1 <= i <= maxEntries + 1 && done == 2 * maxEntries + (i - 1)
        invariant store == ApplyAll(was, plan[..done]) && stats == TallyAll(was, plan[..done])
        invariant faults == old(faults) && commits == old(commits)
        decreases maxEntries + 1 - i
      {
        IrkAt(maxEntries, i);
        ok, done := ErasePlanned(Name(LocalIrk, i), was, plan, done);
        if !ok { return; }
        i := i + 1;
      }
      ok := true;
    }

    method ErasePlanned(name: Name, ghost was: Store, ghost plan: seq<Step>, ghost k: nat)
      returns (ok: bool, ghost done: nat)
      requires k < |plan| && plan[k] == IrkErase(name) && store == ApplyAll(was, plan[..k])
      requires stats == TallyAll(was, plan[..k])
      modifies this
      ensures done == (if ok then k + 1 else k) && store == ApplyAll(was, plan[..done])
      ensures ok ==> stats == TallyAll(was, plan[..done])
      ensures old(faults) <= faults && (ok <==> faults == old(faults)) && commits == old(commits)
    {
      ok := MigrateLocalIrkEntryToV1(name);
      ApplyNext(was, plan, k);
      TallyNext(was, plan, k);
      done := if ok then k + 1 else k;
    }
  }
}
