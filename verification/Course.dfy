/** A callback has a single course: the calls it makes when nothing goes wrong.
    Trouble can only cut that course short. This is what makes a retry equal a first try. */
module Course {
  import opened Types
  import opened Order
  import opened EngineSpec

  /** Run r is what fate makes of the untroubled run p. */
  ghost predicate CutShort(p: Run, fate: Fate, r: Run) {
    && (p.status == Done || p.status.Refused?)
    && (forall i | 0 <= i < |p.calls| :: p.calls[i].ok)
    && match fate
       case Smooth => r == p
       case FailAt(n) =>
         if n < |p.calls|
         then r.status == LocateFailed && r.calls == p.calls[..n] + [p.calls[n].(ok := false)]
         else r == p
       case DieAt(n) =>
         if n < |p.calls|
         then r.status == Died && r.calls == p.calls[..n]
         else r == p
  }

  lemma {:induction false} ClearCourse(data: Data, keys: seq<string>, fate: Fate)
    requires Sorted(keys) && forall k | k in keys :: k in data.managed
    ensures CutShort(Clear(data, keys, Smooth, false), fate, Clear(data, keys, fate, false))
    decreases |keys|
  {
    if keys != [] {
      ForgetKeepsRest(data, keys);
      var next := Forget(data, keys[0]);
      ClearCourse(next, keys[1..], fate.Later(1));
    }
  }

  lemma ActionCourse(data: Data, pool: string, guid: string, disk: Option<Disk>, action: Action, fate: Fate)
    ensures CutShort(ApplyAction(data, pool, guid, disk, action, Smooth, false), fate,
                     ApplyAction(data, pool, guid, disk, action, fate, false))
  {
    if action == Off {
      ClearCourse(data, Listing(OwnedKeys(data, guid)), fate);
    } else {
      hide Bay.Key;
      var p := ApplyOn(data, pool, guid, disk, Smooth, false);
      assert p.calls == [] || p.calls == [p.calls[0]];
    }
  }

  lemma JoinCourse(p1: Run, p2: Run, fate: Fate, r1: Run, r2: Run)
    requires CutShort(p1, fate, r1) && p1.status == Done
    requires CutShort(p2, fate.Later(|p1.calls|), r2)
    ensures CutShort(Join(p1, p2), fate, if r1.status == Done then Join(r1, r2) else r1)
  {
  }

  lemma {:induction false} ReconcileCourse(data: Data, disks: seq<Disk>, fate: Fate)
    ensures CutShort(ReconcileDisks(data, disks, Smooth, false), fate, ReconcileDisks(data, disks, fate, false))
    decreases |disks|
  {
    if disks != [] {
      var d := disks[0];
      match ActionFor(d.state)
      case None =>
        ReconcileCourse(data, disks[1..], fate);
      case Some(action) =>
        ActionCourse(data, d.pool, d.guid, Some(d), action, fate);
        var p1 := ApplyAction(data, d.pool, d.guid, Some(d), action, Smooth, false);
        var r1 := ApplyAction(data, d.pool, d.guid, Some(d), action, fate, false);
        if p1.status == Done {
          var later := fate.Later(|p1.calls|);
          ReconcileCourse(p1.data, disks[1..], later);
          JoinCourse(p1, ReconcileDisks(p1.data, disks[1..], Smooth, false), fate,
                     r1, ReconcileDisks(p1.data, disks[1..], later, false));
        }
    }
  }

  /** Whatever the environment does, a callback follows its one course up to the trouble. */
  lemma ExecCourse(data: Data, job: Job, fate: Fate)
    ensures CutShort(Exec(data, job, Smooth, false), fate, Exec(data, job, fate, false))
  {
    var start := Refreshed(data, job);
    match job
    case Handle(event, eventAction, disks) =>
      var disk := FindDisk(disks, event.guid);
      if !Duplicate(start, event) && !(disk.Some? && ActionFor(disk.value.state).None?) {
        var action := if disk.Some? then ActionFor(disk.value.state).value else eventAction;
        ActionCourse(start, event.pool, event.guid, disk, action, fate);
      }
    case Reconcile(disks) =>
      ReconcileCourse(start, disks, fate);
    case Cleanup =>
      ClearCourse(start, Listing(start.managed.Keys), fate);
  }
}
