/** What a dry run promises about the real run, and exactly when it keeps the promise. */
module DryRun {
  import opened Types
  import opened Order
  import opened EngineSpec
  import opened Promises
  import opened Convergence
  import opened Provenance
  import opened Reports

  function Applied(ops: seq<Operation>): seq<Operation> {
    seq(|ops|, i requires 0 <= i < |ops| => ops[i].(applied := true))
  }

  /** The real run p ended like the dry run q and did what q announced, in the same order. */
  ghost predicate Faithful(p: Run, q: Run) {
    p.status == q.status && p.ops == Applied(q.ops)
  }

  // ----- A dry run has no side effects -----

  lemma {:induction false} ClearDry(data: Data, keys: seq<string>, fate: Fate)
    requires Sorted(keys) && forall k | k in keys :: k in data.managed
    ensures var q := Clear(data, keys, fate, true);
            q.status == Done && q.data == data && q.calls == [] && !q.ignored
    decreases |keys|
  {
    if keys != [] { ClearDry(data, keys[1..], fate); }
  }

  lemma ActionDry(data: Data, pool: string, guid: string, disk: Option<Disk>, action: Action, fate: Fate)
    ensures var q := ApplyAction(data, pool, guid, disk, action, fate, true);
            q.data == data && q.calls == [] && (q.status == Done || q.status.Refused?)
  {
    hide Bay.Key;
    if action == Off { ClearDry(data, Listing(OwnedKeys(data, guid)), fate); }
  }

  lemma {:induction false} ReconcileDry(data: Data, disks: seq<Disk>, fate: Fate)
    ensures var q := ReconcileDisks(data, disks, fate, true);
            q.data == data && q.calls == [] && (q.status == Done || q.status.Refused?)
    decreases |disks|
  {
    if disks != [] {
      var d := disks[0];
      match ActionFor(d.state)
      case None => ReconcileDry(data, disks[1..], fate);
      case Some(action) =>
        ActionDry(data, d.pool, d.guid, Some(d), action, fate);
        assert fate.Later(0) == fate;
        ReconcileDry(data, disks[1..], fate);
    }
  }

  /** No call, no change to the managed LEDs, no event marked, and it cannot fail on hardware. */
  lemma DryRunIsHarmless(data: Data, job: Job, fate: Fate)
    ensures var q := Exec(data, job, fate, true);
            && q.calls == [] && q.data == Refreshed(data, job)
            && (q.status == Done || q.status.Refused?)
  {
    var start := Refreshed(data, job);
    match job
    case Handle(event, eventAction, disks) =>
      var disk := FindDisk(disks, event.guid);
      if !Duplicate(start, event) && !(disk.Some? && ActionFor(disk.value.state).None?) {
        var action := if disk.Some? then ActionFor(disk.value.state).value else eventAction;
        ActionDry(start, event.pool, event.guid, disk, action, fate);
      }
    case Reconcile(disks) => ReconcileDry(start, disks, fate);
    case Cleanup => ClearDry(start, Listing(start.managed.Keys), fate);
  }

  // ----- Handle and Cleanup announce exactly what they do -----

  /** The operations of a clearing loop, spelled out key by key. */
  lemma {:induction false} ClearOps(data: Data, keys: seq<string>, dry: bool)
    requires Sorted(keys) && forall k | k in keys :: k in data.managed
    ensures var r := Clear(data, keys, Smooth, dry);
            && r.status == Done && |r.ops| == |keys|
            && forall i | 0 <= i < |keys| ::
                 r.ops[i] == Operation(data.managed[keys[i]].guid, data.managed[keys[i]].bay, Off, !dry, false)
    decreases |keys|
  {
    if keys != [] && dry {
      ClearOps(data, keys[1..], dry);
    } else if keys != [] {
      ForgetKeepsRest(data, keys);
      var next := Forget(data, keys[0]);
      ClearOps(next, keys[1..], dry);
      forall i | 0 < i < |keys|
        ensures keys[i] in next.managed && next.managed[keys[i]] == data.managed[keys[i]]
      {
        assert keys[1..][i - 1] == keys[i];
      }
    }
  }

  lemma ClearFaithful(data: Data, keys: seq<string>)
    requires Sorted(keys) && forall k | k in keys :: k in data.managed
    ensures Faithful(Clear(data, keys, Smooth, false), Clear(data, keys, Smooth, true))
  {
    ClearOps(data, keys, false);
    ClearOps(data, keys, true);
  }

  lemma ActionFaithful(data: Data, pool: string, guid: string, disk: Option<Disk>, action: Action)
    ensures var p := ApplyAction(data, pool, guid, disk, action, Smooth, false);
            var q := ApplyAction(data, pool, guid, disk, action, Smooth, true);
            Faithful(p, q) && p.ignored == q.ignored
  {
    hide Bay.Key;
    if action == Off {
      ClearFaithful(data, Listing(OwnedKeys(data, guid)));
    }
  }

  /** A faithful run that tells the truth has called exactly what its dry run announced. */
  lemma AnnouncedIsCalled(p: Run, q: Run)
    requires Faithful(p, q) && Truthful(p) && p.status != LocateFailed
    ensures p.calls == Echo(q.ops)
  {
  }

  /** When every locate call succeeds, Handle and Cleanup issue precisely the calls their dry
      run announced, in that order, and end as it did, from any state. */
  lemma HandleAndCleanupFaithful(data: Data, job: Job)
    requires !job.Reconcile?
    ensures var p := Exec(data, job, Smooth, false);
            var q := Exec(data, job, Smooth, true);
            Faithful(p, q) && p.ignored == q.ignored && p.calls == Echo(q.ops)
  {
    hide Echo, Truthful;
    var start := Refreshed(data, job);
    DryRunIsHarmless(data, job, Smooth);
    ExecTruthful(data, job, Smooth);
    match job
    case Handle(event, eventAction, disks) =>
      hide ApplyAction, FindDisk, Refresh, Fingerprint;
      var disk := FindDisk(disks, event.guid);
      if !Duplicate(start, event) && !(disk.Some? && ActionFor(disk.value.state).None?) {
        var action := if disk.Some? then ActionFor(disk.value.state).value else eventAction;
        ActionFaithful(start, event.pool, event.guid, disk, action);
      }
      AnnouncedIsCalled(Exec(data, job, Smooth, false), Exec(data, job, Smooth, true));
    case Cleanup =>
      ClearFaithful(start, Listing(start.managed.Keys));
      AnnouncedIsCalled(Exec(data, job, Smooth, false), Exec(data, job, Smooth, true));
  }

  // ----- Reconcile: the exact condition -----

  function Target(data: Data, d: Disk): Option<string> {
    var t := TargetBay(data, d.guid, Some(d));
    if t.None? then None else Some(t.value.0.Key())
  }

  /** A faulted disk the dry run refuses: no known bay, or a bay owned by another vdev. */
  predicate DryStops(data: Data, d: Disk) {
    IsFaulted(d.state) &&
    match Target(data, d)
    case None => true
    case Some(key) => key in data.managed && data.managed[key].guid != d.guid
  }

  /** Some earlier disk is online and owns this key, so the real run has cleared it. */
  predicate Cleared(data: Data, disks: seq<Disk>, i: nat, key: string)
    requires i <= |disks| && key in data.managed
  {
    exists j | 0 <= j < i :: IsOnline(disks[j].state) && disks[j].guid == data.managed[key].guid
  }

  /** Some earlier disk is faulted and has the same target, so the real run has lit it. */
  predicate LitBefore(data: Data, disks: seq<Disk>, i: nat, key: string)
    requires i <= |disks|
  {
    exists j | 0 <= j < i :: IsFaulted(disks[j].state) && Target(data, disks[j]) == Some(key)
  }

  /** Disk i is faulted and its target bay changes hands earlier in the same pass: it is owned
      by another vdev that is online and comes first, or it is free and another faulted disk
      with the same target comes first. */
  predicate Clash(data: Data, disks: seq<Disk>, i: nat)
    requires i < |disks|
  {
    IsFaulted(disks[i].state) && Target(data, disks[i]).Some? &&
    var key := Target(data, disks[i]).value;
    if key in data.managed
    then data.managed[key].guid != disks[i].guid && Cleared(data, disks, i, key)
    else LitBefore(data, disks, i, key)
  }

  predicate Reached(data: Data, disks: seq<Disk>, i: nat)
    requires i < |disks|
  {
    forall j | 0 <= j < i :: !DryStops(data, disks[j])
  }

  predicate NoClashFrom(data: Data, disks: seq<Disk>, from: nat) {
    forall i | from <= i < |disks| :: Reached(data, disks, i) ==> !Clash(data, disks, i)
  }

  /** How the real run's state relates to the untouched one the dry run keeps looking at. */
  ghost predicate Tracks(data: Data, disks: seq<Disk>, i: nat, now: Data)
    requires i <= |disks|
  {
    && now.mappings == data.mappings
    && (forall k | k in data.managed ::
          (k in now.managed <==> !Cleared(data, disks, i, k)) &&
          (k in now.managed ==> now.managed[k] == data.managed[k]))
    && (forall k | k !in data.managed ::
          (k in now.managed <==> LitBefore(data, disks, i, k)) &&
          (k in now.managed ==> exists j | 0 <= j < i :: disks[j].guid == now.managed[k].guid))
  }

  lemma ClearedSnoc(data: Data, disks: seq<Disk>, i: nat, key: string)
    requires i < |disks| && key in data.managed
    ensures Cleared(data, disks, i + 1, key) <==>
            || Cleared(data, disks, i, key)
            || (IsOnline(disks[i].state) && disks[i].guid == data.managed[key].guid)
  {
  }

  lemma LitSnoc(data: Data, disks: seq<Disk>, i: nat, key: string)
    requires i < |disks|
    ensures LitBefore(data, disks, i + 1, key) <==>
            || LitBefore(data, disks, i, key)
            || (IsFaulted(disks[i].state) && Target(data, disks[i]) == Some(key))
  {
  }

  /** A disk that calls for nothing keeps the relation. */
  lemma TracksIdle(data: Data, disks: seq<Disk>, i: nat, now: Data)
    requires i < |disks| && Tracks(data, disks, i, now) && ActionFor(disks[i].state).None?
    ensures Tracks(data, disks, i + 1, now)
  {
  }

  lemma OffSame(data: Data, now: Data, guid: string)
    requires OwnedKeys(now, guid) == OwnedKeys(data, guid)
    requires forall k | k in OwnedKeys(data, guid) :: k in now.managed && now.managed[k] == data.managed[k]
    ensures var p := ApplyOff(now, guid, Smooth, false);
            var q := ApplyOff(data, guid, Smooth, true);
            && Faithful(p, q) && p.ignored == q.ignored && p.status == Done
            && p.data == now.(managed := now.managed - OwnedKeys(data, guid))
  {
    var ks := Listing(OwnedKeys(data, guid));
    ClearOps(now, ks, false);
    ClearOps(data, ks, true);
    ClearRemoves(now, ks, Smooth);
    ClearFrame(now, ks, Smooth, false);
    assert (set k | k in ks) == OwnedKeys(data, guid);
  }

  lemma TracksOff(data: Data, disks: seq<Disk>, i: nat, now: Data)
    requires i < |disks| && Tracks(data, disks, i, now) && IsOnline(disks[i].state)
    ensures Tracks(data, disks, i + 1, now.(managed := now.managed - OwnedKeys(data, disks[i].guid)))
  {
    hide Target;
    var gone := OwnedKeys(data, disks[i].guid);
    forall k | k in data.managed ensures Cleared(data, disks, i + 1, k) <==> Cleared(data, disks, i, k) || k in gone {
      ClearedSnoc(data, disks, i, k);
    }
    forall k ensures LitBefore(data, disks, i + 1, k) == LitBefore(data, disks, i, k) {
      LitSnoc(data, disks, i, k);
    }
    hide Cleared, LitBefore;
  }

  /** An online disk: both runs clear the same LEDs, and the relation carries over. */
  lemma OffStep(data: Data, disks: seq<Disk>, i: nat, now: Data)
    requires i < |disks| && DistinctGuids(disks) && Tracks(data, disks, i, now)
    requires IsOnline(disks[i].state)
    ensures var p := ApplyOff(now, disks[i].guid, Smooth, false);
            var q := ApplyOff(data, disks[i].guid, Smooth, true);
            && Faithful(p, q) && p.ignored == q.ignored && p.status == Done
            && Tracks(data, disks, i + 1, p.data)
  {
    OffSame(data, now, disks[i].guid);
    TracksOff(data, disks, i, now);
  }

  /** A faulted disk that neither clashes nor is refused: both runs do the same. */
  lemma OnStep(data: Data, disks: seq<Disk>, i: nat, now: Data)
    requires i < |disks| && DistinctGuids(disks) && Tracks(data, disks, i, now)
    requires IsFaulted(disks[i].state) && !DryStops(data, disks[i]) && !Clash(data, disks, i)
    ensures var d := disks[i];
            var p := ApplyOn(now, d.pool, d.guid, Some(d), Smooth, false);
            var q := ApplyOn(data, d.pool, d.guid, Some(d), Smooth, true);
            && Faithful(p, q) && p.ignored == q.ignored && p.status == Done
            && Tracks(data, disks, i + 1, p.data)
  {
    hide Bay.Key, Tracks, Cleared, LitBefore;
    var d := disks[i];
    TracksTarget(data, disks, i, now);
    var key := TargetBay(data, d.guid, Some(d)).value.0.Key();
    TracksOn(data, disks, i, now, key, ManagedLED(d.pool, d.guid, TargetBay(data, d.guid, Some(d)).value.0));
  }

  /** While the relation holds both runs aim at the same bay. */
  lemma TracksTarget(data: Data, disks: seq<Disk>, i: nat, now: Data)
    requires i < |disks| && Tracks(data, disks, i, now)
    ensures TargetBay(now, disks[i].guid, Some(disks[i])) == TargetBay(data, disks[i].guid, Some(disks[i]))
    ensures var t := TargetBay(data, disks[i].guid, Some(disks[i]));
            Target(data, disks[i]) == if t.None? then None else Some(t.value.0.Key())
  {
  }

  /** Lighting a free bay, or finding it lit for the same vdev, carries the relation over. */
  lemma TracksOn(data: Data, disks: seq<Disk>, i: nat, now: Data, key: string, led: ManagedLED)
    requires i < |disks| && DistinctGuids(disks) && Tracks(data, disks, i, now)
    requires IsFaulted(disks[i].state) && Target(data, disks[i]) == Some(key) && led.guid == disks[i].guid
    requires key in data.managed ==> data.managed[key].guid == disks[i].guid
    requires key !in data.managed ==> !LitBefore(data, disks, i, key)
    ensures key in data.managed ==>
              key in now.managed && now.managed[key] == data.managed[key] && Tracks(data, disks, i + 1, now)
    ensures key !in data.managed ==>
              key !in now.managed && Tracks(data, disks, i + 1, now.(managed := now.managed[key := led]))
  {
    hide Target;
    forall k | k in data.managed ensures Cleared(data, disks, i + 1, k) == Cleared(data, disks, i, k) {
      ClearedSnoc(data, disks, i, k);
    }
    forall k ensures LitBefore(data, disks, i + 1, k) <==> LitBefore(data, disks, i, k) || k == key {
      LitSnoc(data, disks, i, k);
    }
    if key in data.managed {
      assert !Cleared(data, disks, i, key);
    }
  }

  /** A faulted disk both runs refuse for the same reason. */
  lemma StopStep(data: Data, disks: seq<Disk>, i: nat, now: Data)
    requires i < |disks| && Tracks(data, disks, i, now)
    requires DryStops(data, disks[i]) && !Clash(data, disks, i)
    ensures var d := disks[i];
            var p := ApplyOn(now, d.pool, d.guid, Some(d), Smooth, false);
            var q := ApplyOn(data, d.pool, d.guid, Some(d), Smooth, true);
            Faithful(p, q) && p.status.Refused? && q.status.Refused? && p.ignored == q.ignored
  {
    hide Bay.Key;
    var d := disks[i];
    assert TargetBay(now, d.guid, Some(d)) == TargetBay(data, d.guid, Some(d));
  }

  /** A clash: exactly one of the two runs reports an operation for this disk. */
  lemma ClashStep(data: Data, disks: seq<Disk>, i: nat, now: Data)
    requires i < |disks| && DistinctGuids(disks) && Tracks(data, disks, i, now) && Clash(data, disks, i)
    ensures var d := disks[i];
            var p := ApplyOn(now, d.pool, d.guid, Some(d), Smooth, false);
            var q := ApplyOn(data, d.pool, d.guid, Some(d), Smooth, true);
            || (p.status == Done && p.ops != [] && q.status != Done && q.ops == [])
            || (q.status == Done && q.ops != [] && p.status != Done && p.ops == [])
  {
    hide Bay.Key;
    var d := disks[i];
    assert TargetBay(now, d.guid, Some(d)) == TargetBay(data, d.guid, Some(d));
    var key := TargetBay(data, d.guid, Some(d)).value.0.Key();
    assert Target(data, d) == Some(key);
  }

  lemma JoinFaithful(p1: Run, p2: Run, q1: Run, q2: Run)
    requires Faithful(p1, q1)
    ensures Faithful(Join(p1, p2), Join(q1, q2)) <==> Faithful(p2, q2)
  {
    var p, q := Join(p1, p2), Join(q1, q2);
    assert Applied(q.ops) == Applied(q1.ops) + Applied(q2.ops);
    assert |p1.ops| == |q1.ops|;
    if p.ops == Applied(q.ops) {
      assert p2.ops == p.ops[|p1.ops|..];
      assert Applied(q2.ops) == Applied(q.ops)[|p1.ops|..];
    }
  }

  lemma NothingAnnounced(data: Data, now: Data)
    ensures var p := ReconcileDisks(now, [], Smooth, false);
            var q := ReconcileDisks(data, [], Smooth, true);
            Faithful(p, q) && p.ignored == q.ignored
  {
  }

  /** Only a faulted disk can be refused or clash. */
  lemma IdleDoesNotClash(data: Data, disks: seq<Disk>, i: nat)
    requires i < |disks|
    ensures !IsFaulted(disks[i].state) ==> !Clash(data, disks, i) && !DryStops(data, disks[i])
  {
  }

  lemma {:induction false} ReconcileFaithfulFrom(data: Data, disks: seq<Disk>, i: nat, now: Data)
    requires i <= |disks| && DistinctGuids(disks) && Tracks(data, disks, i, now)
    requires forall j | 0 <= j < i :: !DryStops(data, disks[j])
    ensures var p := ReconcileDisks(now, disks[i..], Smooth, false);
            var q := ReconcileDisks(data, disks[i..], Smooth, true);
            && (Faithful(p, q) <==> NoClashFrom(data, disks, i))
            && (Faithful(p, q) ==> p.ignored == q.ignored)
    decreases |disks| - i
  {
    hide Bay.Key, Target, Clash, DryStops, Tracks, Faithful, ApplyOn, ApplyOff, ActionFor;
    if i == |disks| {
      assert disks[i..] == [];
      NothingAnnounced(data, now);
    } else {
      var d := disks[i];
      var rest := disks[i..];
      assert rest[0] == d && rest[1..] == disks[i + 1..];
      IdleDoesNotClash(data, disks, i);
      ActionWords(d.state);
      match ActionFor(d.state)
      case None =>
        TracksIdle(data, disks, i, now);
        ReconcileFaithfulFrom(data, disks, i + 1, now);
      case Some(action) =>
        ActionDry(data, d.pool, d.guid, Some(d), action, Smooth);
        var p := ApplyAction(now, d.pool, d.guid, Some(d), action, Smooth, false);
        var q := ApplyAction(data, d.pool, d.guid, Some(d), action, Smooth, true);
        if action == Off {
          OffStep(data, disks, i, now);
          FaithfulAfter(data, disks, i, now, p, q);
        } else if Clash(data, disks, i) {
          assert Reached(data, disks, i);
          ClashStep(data, disks, i, now);
          ClashShows(p, q, ReconcileDisks(p.data, disks[i + 1..], Smooth, false),
                     ReconcileDisks(q.data, disks[i + 1..], Smooth, true));
        } else if DryStops(data, d) {
          StopStep(data, disks, i, now);
          assert forall j | i < j < |disks| :: !Reached(data, disks, j);
        } else {
          OnStep(data, disks, i, now);
          FaithfulAfter(data, disks, i, now, p, q);
        }
    }
  }

  lemma ClashShows(p: Run, q: Run, p2: Run, q2: Run)
    requires || (p.status == Done && p.ops != [] && q.status != Done && q.ops == [])
             || (q.status == Done && q.ops != [] && p.status != Done && p.ops == [])
    ensures !Faithful(if p.status == Done then Join(p, p2) else p, if q.status == Done then Join(q, q2) else q)
  {
  }

  lemma {:induction false} FaithfulAfter(data: Data, disks: seq<Disk>, i: nat, now: Data, p: Run, q: Run)
    requires i < |disks| && DistinctGuids(disks) && ActionFor(disks[i].state).Some?
    requires var d := disks[i];
             && p == ApplyAction(now, d.pool, d.guid, Some(d), ActionFor(d.state).value, Smooth, false)
             && q == ApplyAction(data, d.pool, d.guid, Some(d), ActionFor(d.state).value, Smooth, true)
    requires Faithful(p, q) && p.ignored == q.ignored && p.status == Done && q.data == data
    requires Tracks(data, disks, i + 1, p.data)
    requires forall j | 0 <= j <= i :: !DryStops(data, disks[j])
    requires !Clash(data, disks, i)
    ensures var p' := ReconcileDisks(now, disks[i..], Smooth, false);
            var q' := ReconcileDisks(data, disks[i..], Smooth, true);
            && (Faithful(p', q') <==> NoClashFrom(data, disks, i))
            && (Faithful(p', q') ==> p'.ignored == q'.ignored)
    decreases |disks| - i, 0
  {
    var rest := disks[i..];
    assert rest[0] == disks[i] && rest[1..] == disks[i + 1..];
    ReconcileFaithfulFrom(data, disks, i + 1, p.data);
    JoinFaithful(p, ReconcileDisks(p.data, disks[i + 1..], Smooth, false),
                 q, ReconcileDisks(q.data, disks[i + 1..], Smooth, true));
    assert Smooth.Later(|p.calls|) == Smooth && Smooth.Later(|q.calls|) == Smooth;
  }

  /** With distinct GUIDs and every locate call succeeding, the dry run of a reconciliation
      announces exactly the operations and the ending of the real one if and only if no disk
      the dry run reaches finds its target bay changing hands earlier in the same pass. When it
      does, the calls are exactly those it announced. */
  lemma ReconcileFaithfulIff(data: Data, disks: seq<Disk>)
    requires DistinctGuids(disks)
    ensures var p := Exec(data, Reconcile(disks), Smooth, false);
            var q := Exec(data, Reconcile(disks), Smooth, true);
            && (Faithful(p, q) <==> NoClashFrom(Refreshed(data, Reconcile(disks)), disks, 0))
            && (Faithful(p, q) ==> p.ignored == q.ignored && p.calls == Echo(q.ops))
  {
    hide Faithful, Truthful, Echo, ReconcileDisks, NoClashFrom, Refresh;
    var start := Refreshed(data, Reconcile(disks));
    assert disks[0..] == disks;
    ReconcileFaithfulFrom(start, disks, 0, start);
    var p, q := Exec(data, Reconcile(disks), Smooth, false), Exec(data, Reconcile(disks), Smooth, true);
    if Faithful(p, q) {
      ExecTruthful(data, Reconcile(disks), Smooth);
      DryRunIsHarmless(data, Reconcile(disks), Smooth);
      SameEnding(p, q);
      AnnouncedIsCalled(p, q);
    }
  }

  lemma SameEnding(p: Run, q: Run)
    requires Faithful(p, q)
    ensures p.status == q.status
  {
  }

  /** A dry run goes through exactly when it refuses no disk. */
  lemma {:induction false} DryRunDoneIff(data: Data, disks: seq<Disk>)
    ensures ReconcileDisks(data, disks, Smooth, true).status == Done <==> forall d | d in disks :: !DryStops(data, d)
    decreases |disks|
  {
    hide Bay.Key;
    if disks != [] {
      var d, rest := disks[0], disks[1..];
      assert disks == [d] + rest;
      assert (forall e | e in disks :: !DryStops(data, e)) <==>
             !DryStops(data, d) && forall e | e in rest :: !DryStops(data, e);
      DryRunDoneIff(data, rest);
      if ActionFor(d.state).Some? {
        var action := ActionFor(d.state).value;
        ActionDry(data, d.pool, d.guid, Some(d), action, Smooth);
        if action == Off { ClearDry(data, Listing(OwnedKeys(data, d.guid)), Smooth); }
        assert ApplyAction(data, d.pool, d.guid, Some(d), action, Smooth, true).status == Done <==> !DryStops(data, d);
        assert Smooth.Later(0) == Smooth;
      }
    }
  }

  /** When every locate call succeeds, a reconciliation of distinct GUIDs in which every faulted
      disk has a known bay that no other vdev owns or is lit for earlier succeeds. */
  lemma ReconcileSucceeds(data: Data, disks: seq<Disk>)
    requires DistinctGuids(disks) && NoClashFrom(Refreshed(data, Reconcile(disks)), disks, 0)
    requires forall d | d in disks :: !DryStops(Refreshed(data, Reconcile(disks)), d)
    ensures Exec(data, Reconcile(disks), Smooth, false).status == Done
  {
    hide NoClashFrom, DryStops, ReconcileDisks, Refresh;
    ReconcileFaithfulIff(data, disks);
    DryRunDoneIff(Refreshed(data, Reconcile(disks)), disks);
  }

  // ----- Both ways to be misled -----

  /** Disks of a pass that asks for the first to be lit or cleared, and then the second. */
  lemma TwoDisks(data: Data, d1: Disk, d2: Disk, dry: bool)
    requires ActionFor(d1.state).Some? && ActionFor(d2.state).Some?
    ensures var first := ApplyAction(data, d1.pool, d1.guid, Some(d1), ActionFor(d1.state).value, Smooth, dry);
            var second := ApplyAction(first.data, d2.pool, d2.guid, Some(d2), ActionFor(d2.state).value, Smooth, dry);
            && (first.status == Done ==> ReconcileDisks(data, [d1, d2], Smooth, dry).status == second.status)
            && (first.status == Done ==> ReconcileDisks(data, [d1, d2], Smooth, dry).ops == first.ops + second.ops)
  {
    hide ApplyAction, ActionFor;
    var first := ApplyAction(data, d1.pool, d1.guid, Some(d1), ActionFor(d1.state).value, Smooth, dry);
    assert [d1, d2][1..] == [d2] && [d2][1..] == [];
    assert Smooth.Later(|first.calls|) == Smooth;
    if first.status == Done {
      OneDisk(first.data, d2, dry);
      assert ReconcileDisks(data, [d1, d2], Smooth, dry) == Join(first, ReconcileDisks(first.data, [d2], Smooth, dry));
    }
  }

  lemma OneDisk(data: Data, d: Disk, dry: bool)
    requires ActionFor(d.state).Some?
    ensures var r := ApplyAction(data, d.pool, d.guid, Some(d), ActionFor(d.state).value, Smooth, dry);
            var one := ReconcileDisks(data, [d], Smooth, dry);
            one.status == r.status && one.ops == r.ops
  {
    hide ApplyAction, ActionFor;
    assert [d][1..] == [];
  }

  /** Two faulted disks that map to one free bay: the dry run announces both operations, the
      real run lights the bay for the first disk and refuses the second. */
  lemma DryRunPromisesTooMuch(data: Data, d1: Disk, d2: Disk, bay: Bay)
    requires IsFaulted(d1.state) && IsFaulted(d2.state) && d1.guid != d2.guid
    requires d1.bay == d2.bay == Some(bay) && IsComplete(bay) && bay.Key() !in data.managed
    ensures var p, q := Exec(data, Reconcile([d1, d2]), Smooth, false), Exec(data, Reconcile([d1, d2]), Smooth, true);
            && q.status == Done
            && q.ops == [Operation(d1.guid, bay, On, false, false), Operation(d2.guid, bay, On, false, false)]
            && p.status == Refused(Ambiguous) && p.ops == [Operation(d1.guid, bay, On, true, false)]
  {
    hide Bay.Key, Refresh, ReconcileDisks, ActionFor;
    ActionWords(d1.state);
    ActionWords(d2.state);
    var start := Refreshed(data, Reconcile([d1, d2]));
    TwoDisks(start, d1, d2, false);
    TwoDisks(start, d1, d2, true);
  }

  /** A bay owned by a disk that is online again, and a faulted disk found in that bay: the
      dry run stops at the second disk, the real run clears the bay and lights it anew. */
  lemma DryRunPromisesTooLittle(data: Data, d1: Disk, d2: Disk, bay: Bay)
    requires IsOnline(d1.state) && IsFaulted(d2.state) && d1.guid != d2.guid
    requires d2.bay == Some(bay) && IsComplete(bay)
    requires data.managed == map[bay.Key() := ManagedLED(d1.pool, d1.guid, bay)]
    ensures var p, q := Exec(data, Reconcile([d1, d2]), Smooth, false), Exec(data, Reconcile([d1, d2]), Smooth, true);
            && q.status == Refused(Ambiguous) && q.ops == [Operation(d1.guid, bay, Off, false, false)]
            && p.status == Done
            && p.ops == [Operation(d1.guid, bay, Off, true, false), Operation(d2.guid, bay, On, true, false)]
  {
    hide Bay.Key, Refresh, ReconcileDisks, ActionFor, Clear;
    ActionWords(d1.state);
    ActionWords(d2.state);
    var start := Refreshed(data, Reconcile([d1, d2]));
    var key := bay.Key();
    assert OwnedKeys(start, d1.guid) == {key};
    ListingOfOne(key);
    OneKeyCleared(start, key, false);
    OneKeyCleared(start, key, true);
    TwoDisks(start, d1, d2, false);
    TwoDisks(start, d1, d2, true);
  }

  lemma OneKeyCleared(data: Data, key: string, dry: bool)
    requires key in data.managed && Sorted([key])
    ensures var r, led := Clear(data, [key], Smooth, dry), data.managed[key];
            && r.status == Done && r.ops == [Operation(led.guid, led.bay, Off, !dry, false)]
            && r.data == if dry then data else Forget(data, key)
  {
    assert [key][1..] == [];
  }
}
