/** Failing and trying again ends where succeeding at once would have. */
module Retry {
  import opened Types
  import opened EngineSpec
  import opened Promises
  import opened Course
  import opened Bookkeeping
  import opened History
  import opened Order
  import opened Provenance
  import opened Convergence
  import opened Duplicates

  /** The locate LEDs, by ownership key. */
  type Lamps = map<string, bool>

  /** Absolute writes, in order. A failing call may or may not have reached the lamp. */
  function Shine(lamps: Lamps, calls: seq<Call>, landed: bool): Lamps
    decreases calls
  {
    if calls == [] then lamps
    else
      var c := calls[0];
      Shine(if c.ok || landed then lamps[c.bay.Key() := c.action == On] else lamps, calls[1..], landed)
  }

  ghost predicate AgreeOutside(a: Lamps, b: Lamps, keys: set<string>) {
    forall k | k !in keys :: (k in a <==> k in b) && (k in a ==> a[k] == b[k])
  }

  lemma {:induction false} ShineStaysWithin(lamps: Lamps, calls: seq<Call>, landed: bool)
    ensures AgreeOutside(lamps, Shine(lamps, calls, landed), Touched(calls))
    decreases calls
  {
    hide Bay.Key;
    if calls != [] {
      var c := calls[0];
      assert c in calls;
      assert Touched(calls[1..]) <= Touched(calls);
      var next := if c.ok || landed then lamps[c.bay.Key() := c.action == On] else lamps;
      ShineStaysWithin(next, calls[1..], landed);
    }
  }

  /** Successful calls overwrite every lamp they touch, so what those lamps showed before
      does not matter. */
  lemma {:induction false} ShineForgets(a: Lamps, b: Lamps, calls: seq<Call>, landed: bool)
    requires AllOk(calls) && AgreeOutside(a, b, Touched(calls))
    ensures Shine(a, calls, landed) == Shine(b, calls, landed)
    decreases calls
  {
    hide Bay.Key;
    if calls != [] {
      var c := calls[0];
      var key := c.bay.Key();
      assert calls == [c] + calls[1..];
      assert Touched(calls) == Touched(calls[1..]) + {key};
      ShineForgets(a[key := c.action == On], b[key := c.action == On], calls[1..], landed);
    }
  }

  /** An unpublished attempt: what befell it, and whether its failing call took effect. */
  datatype Try = Try(fate: Fate, landed: bool)

  ghost function AfterTries(lamps: Lamps, data: Data, job: Job, tries: seq<Try>): Lamps {
    if tries == [] then lamps
    else
      var last := tries[|tries| - 1];
      Shine(AfterTries(lamps, data, job, tries[..|tries| - 1]), Exec(data, job, last.fate, false).calls, last.landed)
  }

  function Entries(job: Job, tries: seq<Try>): seq<Entry> {
    if tries == [] then []
    else Entries(job, tries[..|tries| - 1]) + [Attempt(job, tries[|tries| - 1].fate, false)]
  }

  lemma AttemptStaysOnCourse(data: Data, job: Job, fate: Fate)
    ensures Touched(Exec(data, job, fate, false).calls) <= Touched(Exec(data, job, Smooth, false).calls)
    ensures AllOk(Exec(data, job, Smooth, false).calls)
  {
    hide Bay.Key;
    ExecCourse(data, job, fate);
    var p := Exec(data, job, Smooth, false).calls;
    var r := Exec(data, job, fate, false).calls;
    forall c | c in r ensures c.bay.Key() in Touched(p) {
      var i :| 0 <= i < |r| && r[i] == c;
      assert p[i] in p;
      assert p[i].bay == c.bay;
    }
  }

  lemma {:induction false} TriesStayOnCourse(lamps: Lamps, data: Data, job: Job, tries: seq<Try>)
    ensures AgreeOutside(lamps, AfterTries(lamps, data, job, tries), Touched(Exec(data, job, Smooth, false).calls))
  {
    if tries != [] {
      var last := tries[|tries| - 1];
      var before := AfterTries(lamps, data, job, tries[..|tries| - 1]);
      TriesStayOnCourse(lamps, data, job, tries[..|tries| - 1]);
      AttemptStaysOnCourse(data, job, last.fate);
      ShineStaysWithin(before, Exec(data, job, last.fate, false).calls, last.landed);
    }
  }

  lemma {:induction false} TriesLeaveTheFile(s: Site, job: Job, tries: seq<Try>)
    ensures AdvanceAll(s, Entries(job, tries)).file == s.file
    ensures AdvanceAll(s, Entries(job, tries)).backups == s.backups
  {
    if tries != [] {
      var prefix := tries[..|tries| - 1];
      TriesLeaveTheFile(s, job, prefix);
      var h := Entries(job, tries);
      assert h[..|h| - 1] == Entries(job, prefix);
    }
  }

  /** Any number of attempts of one job that failed, died or could not be saved, wherever
      they stopped and whatever their last call did to the lamp, followed by an attempt that
      succeeds, leaves the state file, the preserved corrupt files and every lamp exactly as
      one successful attempt would have, also when the first attempt found the file corrupt. */
  lemma RetryEqualsOnce(s: Site, job: Job, tries: seq<Try>, lamps: Lamps)
    requires Exec(Base(Advance(s, Quarantine).file), job, Smooth, false).status == Done
    ensures var start := Advance(s, Quarantine);
            var last := Attempt(job, Smooth, true);
            var retried := Advance(AdvanceAll(start, Entries(job, tries)), last);
            var once := Advance(start, last);
            retried.file == once.file && retried.backups == once.backups
    ensures var data := Base(Advance(s, Quarantine).file);
            var calls := Exec(data, job, Smooth, false).calls;
            Shine(AfterTries(lamps, data, job, tries), calls, true) == Shine(lamps, calls, true)
  {
    var start := Advance(s, Quarantine);
    var data := Base(start.file);
    TriesLeaveTheFile(start, job, tries);
    AttemptStaysOnCourse(data, job, Smooth);
    TriesStayOnCourse(lamps, data, job, tries);
    ShineForgets(AfterTries(lamps, data, job, tries), lamps, Exec(data, job, Smooth, false).calls, true);
  }

  // ----- Running again after the new state is in place -----

  /** Handling an event without an id again, in the state that handling it left. */
  lemma HandleAgain(end: Data, event: Event, eventAction: Action, disks: seq<Disk>, fate: Fate)
    requires event.id == ""
    requires IsDue(event, eventAction, disks, On) ==>
               var t := TargetBay(end, event.guid, FindDisk(disks, event.guid));
               t.Some? && t.value.0.Key() in Own(end.managed, event.guid)
    requires IsDue(event, eventAction, disks, Off) ==> Own(end.managed, event.guid) == map[]
    ensures var r := HandleEvent(end, event, eventAction, disks, fate, false);
            r.status == Done && r.data == end && r.calls == []
  {
    hide Bay.Key, FindDisk, TargetBay, ActionFor, IsFaulted, IsOnline;
    var disk := FindDisk(disks, event.guid);
    if disk.Some? { ActionWords(disk.value.state); }
    if IsDue(event, eventAction, disks, Off) {
      assert forall k :: k in OwnedKeys(end, event.guid) ==> k in Own(end.managed, event.guid);
      EmptyListing(OwnedKeys(end, event.guid));
    }
  }

  lemma HandleTwice(data: Data, job: Job, fate: Fate, fate': Fate)
    requires job.Handle? && Exec(data, job, fate, false).status == Done
    requires Refreshed(Exec(data, job, fate, false).data, job) == Exec(data, job, fate, false).data
    ensures var end := Exec(data, job, fate, false).data;
            var again := Exec(end, job, fate', false);
            again.status == Done && again.data == end && again.calls == []
  {
    hide Bay.Key, Refresh, FindDisk, ActionFor, TargetBay, Fingerprint, Own, OthersKept;
    var event := job.event;
    var end := Exec(data, job, fate, false).data;
    FingerprintParts(event);
    if event.id != "" {
      DuplicateDoesNothing(end, event, job.eventAction, job.disks, fate');
    } else {
      var start := Refreshed(data, job);
      ExecFrame(data, job, fate, false);
      HandleSettles(data, event, job.eventAction, job.disks, fate);
      SameTarget(start, end, event.guid, FindDisk(job.disks, event.guid));
      HandleAgain(end, event, job.eventAction, job.disks, fate');
    }
  }

  lemma SameTarget(a: Data, b: Data, guid: string, disk: Option<Disk>)
    requires a.mappings == b.mappings
    ensures TargetBay(a, guid, disk) == TargetBay(b, guid, disk)
  {
  }

  lemma CleanupTwice(data: Data, fate: Fate, fate': Fate)
    requires Exec(data, Cleanup, fate, false).status == Done
    ensures var end := Exec(data, Cleanup, fate, false).data;
            var again := Exec(end, Cleanup, fate', false);
            again.status == Done && again.data == Refreshed(end, Cleanup) && again.calls == []
  {
    CleanupClears(data, fate);
    EmptyListing({});
    assert Exec(data, Cleanup, fate, false).data.managed.Keys == {};
  }

  /** A job that succeeded has nothing left to do: running it again from the same snapshot makes
      no call, cannot fail and changes nothing, provided a reconciliation has distinct GUIDs. */
  lemma JobIsIdempotent(data: Data, job: Job, fate: Fate, fate': Fate)
    requires Exec(data, job, fate, false).status == Done
    requires job.Reconcile? ==> DistinctGuids(job.disks)
    ensures var end := Exec(data, job, fate, false).data;
            var again := Exec(end, job, fate', false);
            again.status == Done && again.data == end && again.calls == []
  {
    hide Exec, Refresh;
    ExecFrame(data, job, fate, false);
    RefreshTwice(data.mappings, Snapshot(job));
    match job
    case Handle(_, _, _) => HandleTwice(data, job, fate, fate');
    case Reconcile(disks) => ReconcileIsIdempotent(data, disks, fate, fate');
    case Cleanup => CleanupTwice(data, fate, fate');
  }

  lemma {:induction false} RerunsStay(s: Site, job: Job, more: seq<Entry>)
    requires !s.file.Garbled?
    requires forall fate :: Exec(Base(s.file), job, fate, false).calls == []
    requires s.file.Valid? && forall fate :: Exec(s.file.data, job, fate, false).data == s.file.data
    requires forall i | 0 <= i < |more| :: more[i].Attempt? && more[i].job == job
    ensures AdvanceAll(s, more) == s
    decreases |more|
  {
    hide Exec;
    if more != [] {
      var last := |more| - 1;
      RerunsStay(s, job, more[..last]);
      assert s.trace + [] == s.trace;
    }
  }

  /** An attempt that published, whether it reported success or an error from syncing the
      directory, is final: running the same job again, however often, whatever befalls it and
      whether or not it is saved, leaves file, preserved files and calls exactly as they are. */
  lemma RerunChangesNothing(s: Site, job: Job, fate: Fate, more: seq<Entry>)
    requires !s.file.Garbled? && Exec(Base(s.file), job, fate, false).status == Done
    requires job.Reconcile? ==> DistinctGuids(job.disks)
    requires forall i | 0 <= i < |more| :: more[i].Attempt? && more[i].job == job
    ensures var once := Advance(s, Attempt(job, fate, true)); AdvanceAll(once, more) == once
  {
    hide Exec;
    var once := Advance(s, Attempt(job, fate, true));
    forall fate'
      ensures Exec(once.file.data, job, fate', false).calls == []
      ensures Exec(once.file.data, job, fate', false).data == once.file.data
    {
      JobIsIdempotent(Base(s.file), job, fate, fate');
    }
    RerunsStay(once, job, more);
  }
}
