/** What a run reports is what it did: operation for operation, its successful calls. */
module Reports {
  import opened Types
  import opened Order
  import opened EngineSpec
  import opened Promises
  import opened Provenance

  /** The successful calls that a list of operations claims. */
  function Echo(ops: seq<Operation>): seq<Call> {
    seq(|ops|, i requires 0 <= i < |ops| => Call(ops[i].bay, ops[i].action, true))
  }

  /** The operations are the successful calls, one for one and in order; only the call that
      ended a failed run is not reported. */
  ghost predicate Truthful(r: Run) {
    && (forall i | 0 <= i < |r.ops| :: r.ops[i].applied)
    && if r.status == LocateFailed
       then |r.calls| == |r.ops| + 1 && r.calls[..|r.ops|] == Echo(r.ops) && !r.calls[|r.ops|].ok
       else r.calls == Echo(r.ops)
  }

  /** Truthful work followed by a truthful run is truthful. */
  lemma OntoTruthful(ops: seq<Operation>, r: Run)
    requires Truthful(r) && forall i | 0 <= i < |ops| :: ops[i].applied
    ensures Truthful(Onto(Echo(ops), ops, r))
  {
    var whole := Onto(Echo(ops), ops, r);
    if r.status == LocateFailed {
      assert whole.calls[..|whole.ops|] == Echo(ops) + r.calls[..|r.ops|];
    }
  }

  lemma {:induction false} ClearTruthful(data: Data, keys: seq<string>, fate: Fate)
    requires Sorted(keys) && forall k | k in keys :: k in data.managed
    ensures Truthful(Clear(data, keys, fate, false))
    decreases |keys|
  {
    if keys != [] && fate != DieAt(0) && fate != FailAt(0) {
      hide Truthful;
      ForgetKeepsRest(data, keys);
      ClearTruthful(Forget(data, keys[0]), keys[1..], fate.Later(1));
      var led := data.managed[keys[0]];
      var op := Operation(led.guid, led.bay, Off, true, false);
      assert Echo([op]) == [Call(led.bay, Off, true)];
      OntoTruthful([op], Clear(Forget(data, keys[0]), keys[1..], fate.Later(1), false));
    }
  }

  lemma ActionTruthful(data: Data, pool: string, guid: string, disk: Option<Disk>, action: Action, fate: Fate)
    ensures Truthful(ApplyAction(data, pool, guid, disk, action, fate, false))
  {
    hide Bay.Key, TargetBay;
    if action == Off { ClearTruthful(data, Listing(OwnedKeys(data, guid)), fate); }
  }

  lemma {:induction false} ReconcileTruthful(data: Data, disks: seq<Disk>, fate: Fate)
    ensures Truthful(ReconcileDisks(data, disks, fate, false))
    decreases |disks|
  {
    if disks != [] {
      var d := disks[0];
      match ActionFor(d.state)
      case None => ReconcileTruthful(data, disks[1..], fate);
      case Some(action) =>
        hide ApplyAction;
        ActionTruthful(data, d.pool, d.guid, Some(d), action, fate);
        var first := ApplyAction(data, d.pool, d.guid, Some(d), action, fate, false);
        if first.status == Done {
          var rest := ReconcileDisks(first.data, disks[1..], fate.Later(|first.calls|), false);
          ReconcileTruthful(first.data, disks[1..], fate.Later(|first.calls|));
          OntoTruthful(first.ops, rest);
        }
    }
  }

  /** Whatever happens to a job, its report lists exactly the calls that succeeded: same bay,
      same action, same order, none missing and none added. */
  lemma ExecTruthful(data: Data, job: Job, fate: Fate)
    ensures Truthful(Exec(data, job, fate, false))
  {
    hide ApplyAction, Clear, ReconcileDisks, FindDisk, Fingerprint, Refresh;
    var start := Refreshed(data, job);
    match job
    case Handle(event, eventAction, disks) =>
      var disk := FindDisk(disks, event.guid);
      if !Duplicate(start, event) && !(disk.Some? && ActionFor(disk.value.state).None?) {
        var action := if disk.Some? then ActionFor(disk.value.state).value else eventAction;
        ActionTruthful(start, event.pool, event.guid, disk, action, fate);
      }
    case Reconcile(disks) => ReconcileTruthful(start, disks, fate);
    case Cleanup => ClearTruthful(start, Listing(start.managed.Keys), fate);
  }

  // ----- What else a report says -----

  /** The disk that an operation of a job for this GUID is about. */
  ghost predicate About(job: Job, guid: string, disk: Option<Disk>) {
    match job
    case Handle(event, _, disks) => guid == event.guid && disk == FindDisk(disks, guid)
    case Reconcile(disks) => disk.Some? && disk.value in disks && disk.value.guid == guid
    case Cleanup => false
  }

  /** An operation that lights says truly whether its bay is the live bay of the disk or comes from
      the cache; one that clears never claims the cache. */
  ghost predicate Explained(job: Job, op: Operation) {
    match op.action
    case Off => !op.usedCache
    case On => exists disk ::
                 && About(job, op.guid, disk)
                 && (op.usedCache <==> !(disk.Some? && HasBay(disk.value)))
                 && (!op.usedCache ==> disk.value.bay == Some(op.bay))
  }

  lemma {:induction false} ClearExplained(data: Data, keys: seq<string>, fate: Fate, dry: bool)
    requires Sorted(keys) && forall k | k in keys :: k in data.managed
    ensures forall op | op in Clear(data, keys, fate, dry).ops :: op.action == Off && !op.usedCache
    ensures var r := Clear(data, keys, fate, dry);
            (r.status == Done ==> |r.ops| == |keys|) && !r.ignored
    decreases |keys|
  {
    if keys != [] && dry {
      ClearExplained(data, keys[1..], fate, dry);
    } else if keys != [] {
      ForgetKeepsRest(data, keys);
      ClearExplained(Forget(data, keys[0]), keys[1..], fate.Later(1), dry);
    }
  }

  lemma ActionExplained(job: Job, data: Data, pool: string, guid: string, disk: Option<Disk>, action: Action,
                        fate: Fate, dry: bool)
    requires About(job, guid, disk)
    ensures var r := ApplyAction(data, pool, guid, disk, action, fate, dry);
            && (forall op | op in r.ops :: Explained(job, op))
            && (r.status == Done ==> (r.ignored <==> r.ops == [])) && (r.status != Done ==> !r.ignored)
  {
    hide Bay.Key, About, TargetBay, HasBay;
    if action == Off {
      ClearExplained(data, Listing(OwnedKeys(data, guid)), fate, dry);
    } else {
      hide Explained;
      TargetBayIs(data, guid, disk);
      OnExplained(job, data, pool, guid, disk, fate, dry);
    }
  }

  lemma OnExplained(job: Job, data: Data, pool: string, guid: string, disk: Option<Disk>, fate: Fate, dry: bool)
    requires About(job, guid, disk)
    ensures var r := ApplyOn(data, pool, guid, disk, fate, dry);
            && (forall op | op in r.ops :: Explained(job, op))
            && (r.status == Done ==> (r.ignored <==> r.ops == [])) && (r.status != Done ==> !r.ignored)
  {
    hide Bay.Key, About, TargetBay, IsRemembered, IsComplete;
    TargetBayIs(data, guid, disk);
  }

  lemma {:induction false} ReconcileExplained(job: Job, data: Data, disks: seq<Disk>, fate: Fate, dry: bool)
    requires job.Reconcile? && forall d | d in disks :: d in job.disks
    ensures var r := ReconcileDisks(data, disks, fate, dry);
            && (forall op | op in r.ops :: Explained(job, op))
            && (r.ignored ==> exists d :: d in disks && (IsFaulted(d.state) || IsOnline(d.state)))
            && (r.status == Done && r.ops == [] && !r.ignored ==>
                  forall d | d in disks :: !IsFaulted(d.state) && !IsOnline(d.state))
    decreases |disks|
  {
    hide Explained, ApplyAction, ActionFor;
    if disks != [] {
      var d := disks[0];
      assert d in disks && disks == [d] + disks[1..];
      ActionWords(d.state);
      match ActionFor(d.state)
      case None => ReconcileExplained(job, data, disks[1..], fate, dry);
      case Some(action) =>
        ActionExplained(job, data, d.pool, d.guid, Some(d), action, fate, dry);
        var first := ApplyAction(data, d.pool, d.guid, Some(d), action, fate, dry);
        if first.status == Done {
          ReconcileExplained(job, first.data, disks[1..], fate.Later(|first.calls|), dry);
        }
    }
  }

  /** What a report says beside its operations: where each bay came from, and that a Handle or a
      Cleanup which ended well is ignored if and only if it had nothing to do; a reconciliation is
      ignored only if some disk was asked about, and surely if one was and nothing was done. */
  lemma ReportIsExplained(data: Data, job: Job, fate: Fate, dry: bool)
    ensures var r := Exec(data, job, fate, dry);
            && (forall op | op in r.ops :: Explained(job, op))
            && (!job.Reconcile? ==> (r.status == Done ==> (r.ignored <==> r.ops == []))
                                    && (r.status != Done ==> !r.ignored))
            && (job.Reconcile? ==>
                  && (r.ignored ==> exists d :: d in job.disks && (IsFaulted(d.state) || IsOnline(d.state)))
                  && (r.status == Done && r.ops == [] && !r.ignored ==>
                        forall d | d in job.disks :: !IsFaulted(d.state) && !IsOnline(d.state)))
  {
    hide Explained, ApplyAction, Clear, ReconcileDisks, Fingerprint, Refresh, FindDisk, IsFaulted, IsOnline;
    var start := Refreshed(data, job);
    match job
    case Handle(event, eventAction, disks) =>
      var disk := FindDisk(disks, event.guid);
      if !Duplicate(start, event) && !(disk.Some? && ActionFor(disk.value.state).None?) {
        var action := if disk.Some? then ActionFor(disk.value.state).value else eventAction;
        ActionExplained(job, start, event.pool, event.guid, disk, action, fate, dry);
      }
    case Reconcile(disks) => ReconcileExplained(job, start, disks, fate, dry);
    case Cleanup =>
      CleanupExplained(start, fate, dry);
  }

  lemma CleanupExplained(start: Data, fate: Fate, dry: bool)
    ensures var r := CleanupAll(start, fate, dry);
            && (forall op | op in r.ops :: Explained(Cleanup, op))
            && (r.status == Done ==> (r.ignored <==> r.ops == [])) && (r.status != Done ==> !r.ignored)
  {
    ClearExplained(start, Listing(start.managed.Keys), fate, dry);
  }
}
