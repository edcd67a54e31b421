/** The three entry points: what each short-lived process does from its arguments to the
    persisted state. Discovery happens before the lock; its result is an argument here. */
module Automation {
  import opened Types
  import opened Order
  import Text
  import opened EngineSpec
  import opened Promises
  import opened Provenance
  import opened Convergence
  import opened Engine
  import opened History
  import opened StateStore

  datatype Outcome =
    | Rejected(code: ErrorCode)          // malformed event
    | NotManaged                         // not a disk, or a state without an LED action
    | DiscoveryFailed(code: ErrorCode)
    | Updated(recovered: bool, end: End)

  predicate GuidSorted(disks: seq<Disk>) {
    forall i, j | 0 <= i < j < |disks| :: !Before(disks[j].guid, disks[i].guid)
  }

  lemma NotBeforeTransitive(a: string, b: string, c: string)
    requires !Before(b, a) && !Before(c, b)
    ensures !Before(c, a)
  {
  }

  function InsertDisk(d: Disk, disks: seq<Disk>): (r: seq<Disk>)
    ensures multiset(r) == multiset(disks) + multiset{d}
  {
    if disks == [] then [d]
    else if !Before(disks[0].guid, d.guid) then [d] + disks
    else
      assert disks == [disks[0]] + disks[1..];
      [disks[0]] + InsertDisk(d, disks[1..])
  }

  lemma {:induction false} InsertDiskSorted(d: Disk, disks: seq<Disk>)
    requires GuidSorted(disks)
    ensures GuidSorted(InsertDisk(d, disks))
  {
    if disks != [] {
      if !Before(disks[0].guid, d.guid) {
        forall i | 0 <= i < |disks| ensures !Before(disks[i].guid, d.guid) {
          if i > 0 { NotBeforeTransitive(d.guid, disks[0].guid, disks[i].guid); }
        }
      } else {
        InsertDiskSorted(d, disks[1..]);
        var rest := InsertDisk(d, disks[1..]);
        Trichotomy(disks[0].guid, d.guid);
        forall i | 0 <= i < |rest| ensures !Before(rest[i].guid, disks[0].guid) {
          assert rest[i] in multiset(rest);
          assert rest[i] in multiset(disks[1..]) || rest[i] == d;
        }
      }
    }
  }

  method SortByGuid(disks: seq<Disk>) returns (sorted: seq<Disk>)
    ensures GuidSorted(sorted) && multiset(sorted) == multiset(disks)
  {
    sorted := [];
    for i := 0 to |disks|
      invariant GuidSorted(sorted) && multiset(sorted) == multiset(disks[..i])
    {
      InsertDiskSorted(disks[i], sorted);
      assert disks[..i + 1] == disks[..i] + [disks[i]];
      sorted := InsertDisk(disks[i], sorted);
    }
    assert disks[..|disks|] == disks;
  }

  lemma {:induction false} OnceEach(disks: seq<Disk>, d: Disk)
    requires DistinctGuids(disks)
    ensures multiset(disks)[d] <= 1
  {
    if disks != [] {
      assert disks == [disks[0]] + disks[1..];
      OnceEach(disks[1..], d);
      forall i | 0 <= i < |disks[1..]| ensures disks[1..][i] != disks[0] {
        assert disks[1..][i] == disks[i + 1];
      }
    }
  }

  lemma TwicePresent(disks: seq<Disk>, i: nat, j: nat)
    requires i < j < |disks| && disks[i] == disks[j]
    ensures multiset(disks)[disks[i]] >= 2
  {
    assert disks == disks[..i] + [disks[i]] + disks[i + 1..j] + [disks[j]] + disks[j + 1..];
  }

  lemma SortKeepsDistinct(sorted: seq<Disk>, disks: seq<Disk>)
    requires multiset(sorted) == multiset(disks) && DistinctGuids(disks)
    ensures DistinctGuids(sorted)
  {
    forall i, j | 0 <= i < j < |sorted| ensures sorted[i].guid != sorted[j].guid {
      if sorted[i].guid == sorted[j].guid {
        assert sorted[i] in multiset(sorted) && sorted[j] in multiset(sorted);
        var x :| 0 <= x < |disks| && disks[x] == sorted[i];
        var y :| 0 <= y < |disks| && disks[y] == sorted[j];
        assert x == y;
        OnceEach(disks, sorted[i]);
        TwicePresent(sorted, i, j);
      }
    }
  }

  class Service {
    const store: Store

    constructor (store: Store)
      ensures this.store == store
    {
      this.store := store;
    }

    /** A malformed, foreign or unmanaged event, and a failed discovery, touch nothing at all;
        any other event runs as one transaction over the discovered snapshot. If that reports
        success, the file holds what the event asked for, unless the event was a duplicate, and
        then it records the same LEDs as before. */
    method Handle(event: Event, discovery: Result<seq<Disk>>, trouble: Trouble)
      returns (outcome: Outcome, ghost h: seq<Entry>)
      requires !store.locked
      modifies store, store.enclosures
      ensures store.Persisted() == AdvanceAll(old(store.Persisted()), h)
      ensures Validate(event).Some? ==> h == [] && outcome == Rejected(Validate(event).value)
      ensures outcome.Rejected? <==>
                event.vdevType == "" ||
                (event.vdevType == "disk" && (event.pool == "" || !Text.Digits(event.guid) || event.state == ""))
      ensures outcome.Updated? ==>
                event.vdevType == "disk" && event.pool != "" && Text.Digits(event.guid)
                && (IsFaulted(event.state) || IsOnline(event.state))
      ensures Validate(event).None?
              && (event.vdevType != "disk" || (!IsFaulted(event.state) && !IsOnline(event.state))) ==>
                h == [] && outcome == NotManaged
      ensures Validate(event).None? && event.vdevType == "disk" && (IsFaulted(event.state) || IsOnline(event.state)) ==>
                match discovery
                case Err(code) => h == [] && outcome == DiscoveryFailed(code)
                case Ok(disks) =>
                  var job := EngineSpec.Handle(event, if IsFaulted(event.state) then On else Off, disks);
                  && h == Episode(old(store.file), job, old(store.enclosures.fate), trouble)
                  && outcome == Updated(old(store.file).Garbled? && !Blocked(trouble, true),
                                        EndOfUpdate(old(store.file), job, old(store.enclosures.fate), trouble))
                  && (outcome.end == Success ==>
                        var base := Base(old(store.file));
                        store.file.Valid? &&
                        if Duplicate(base, event) then store.file.data.managed == base.managed
                        else Handled(Refreshed(base, job), store.file.data, event, job.eventAction, disks))
    {
      h := [];
      ActionWords(event.state);
      var problem := Validate(event);
      if problem.Some? { outcome := Rejected(problem.value); return; }
      var eventAction := ActionFor(event.state);
      if event.vdevType != "disk" || eventAction.None? { outcome := NotManaged; return; }
      if discovery.Err? { outcome := DiscoveryFailed(discovery.code); return; }
      ghost var base, fate := Base(store.file), store.enclosures.fate;
      CrashAtomicity(store.Persisted(), EngineSpec.Handle(event, eventAction.value, discovery.value), fate, trouble);
      var recovered, end;
      recovered, end, h := store.Update(EngineSpec.Handle(event, eventAction.value, discovery.value), trouble);
      outcome := Updated(recovered, end);
      if Duplicate(base, event) {
        DuplicateDoesNothing(base, event, eventAction.value, discovery.value, fate);
      } else {
        HandleSettles(base, event, eventAction.value, discovery.value, fate);
      }
    }

    /** A reconciliation that reports success has persisted a state in which every faulted
        disk of the snapshot has gained its target bay, every online one owns none, and every
        other one owns what it owned. */
    method Reconcile(discovery: Result<seq<Disk>>, trouble: Trouble)
      returns (outcome: Outcome, ghost sorted: seq<Disk>, ghost h: seq<Entry>)
      requires !store.locked
      modifies store, store.enclosures
      ensures store.Persisted() == AdvanceAll(old(store.Persisted()), h)
      ensures discovery.Err? ==> h == [] && outcome == DiscoveryFailed(discovery.code)
      ensures discovery.Ok? ==>
                var job := EngineSpec.Reconcile(sorted);
                && GuidSorted(sorted) && multiset(sorted) == multiset(discovery.value)
                && h == Episode(old(store.file), job, old(store.enclosures.fate), trouble)
                && outcome == Updated(old(store.file).Garbled? && !Blocked(trouble, true),
                                      EndOfUpdate(old(store.file), job, old(store.enclosures.fate), trouble))
      ensures discovery.Ok? && outcome == Updated(outcome.recovered, Success) && DistinctGuids(discovery.value) ==>
                var start := Refreshed(Base(old(store.file)), EngineSpec.Reconcile(sorted));
                store.file.Valid? && forall d | d in discovery.value :: SettledFrom(start, store.file.data, d)
    {
      h, sorted := [], [];
      if discovery.Err? { outcome := DiscoveryFailed(discovery.code); return; }
      var disks := SortByGuid(discovery.value);
      sorted := disks;
      ghost var base, fate := Base(store.file), store.enclosures.fate;
      CrashAtomicity(store.Persisted(), EngineSpec.Reconcile(disks), fate, trouble);
      var recovered, end;
      recovered, end, h := store.Update(EngineSpec.Reconcile(disks), trouble);
      outcome := Updated(recovered, end);
      if DistinctGuids(discovery.value) && end == Success {
        SortKeepsDistinct(disks, discovery.value);
        ReconcileConverges(base, disks, fate);
        forall d | d in discovery.value
          ensures SettledFrom(Refreshed(base, EngineSpec.Reconcile(disks)), store.file.data, d)
        {
          assert d in multiset(discovery.value);
          var i :| 0 <= i < |disks| && disks[i] == d;
        }
      }
    }

    /** Cleanup discovers nothing; one that reports success has left no managed LED behind. */
    method Cleanup(trouble: Trouble) returns (outcome: Outcome, ghost h: seq<Entry>)
      requires !store.locked
      modifies store, store.enclosures
      ensures store.Persisted() == AdvanceAll(old(store.Persisted()), h)
      ensures h == Episode(old(store.file), EngineSpec.Cleanup, old(store.enclosures.fate), trouble)
      ensures outcome == Updated(old(store.file).Garbled? && !Blocked(trouble, true),
                                 EndOfUpdate(old(store.file), EngineSpec.Cleanup, old(store.enclosures.fate), trouble))
      ensures outcome.end == Success ==> store.file.Valid? && store.file.data.managed == map[]
    {
      ghost var base, fate := Base(store.file), store.enclosures.fate;
      CrashAtomicity(store.Persisted(), EngineSpec.Cleanup, fate, trouble);
      var recovered, end;
      recovered, end, h := store.Update(EngineSpec.Cleanup, trouble);
      outcome := Updated(recovered, end);
      if end == Success {
        CleanupClears(base, fate);
      }
    }
  }
}
