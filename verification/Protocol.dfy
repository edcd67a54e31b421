/** Any number of short-lived processes over one state file, one lock and one set of LEDs.
    Each discovers its disks outside the lock, so its snapshot may be stale by the time it
    runs; LED writes happen one at a time inside the callback; a process may stop anywhere;
    the file may be garbled at any moment. Every such run is shown to be a sequential
    history, which carries the history theorems over to it. */
module Protocol {
  import opened Types
  import opened EngineSpec
  import opened Course
  import opened Ledger
  import opened History
  import opened Safety
  import opened Bookkeeping
  import opened Provenance
  import opened Duplicates

  type Pid = nat

  datatype Phase =
    | Waiting(job: Job)                            // snapshot taken, polling for the lock
    | Locked(job: Job)                             // lock taken, file not read yet
    | Applying(job: Job, base: Data, calls: nat)   // file read; so many locate calls have succeeded
    | Saving(job: Job, base: Data)                 // callback done, temporary file being written
    | Published                                    // renamed into place, directory sync outstanding
    | Ended

  datatype World = World(site: Site, lock: Option<Pid>, procs: map<Pid, Phase>)

  const START := World(EMPTY_SITE, None, map[])

  datatype Step =
    | Discover(p: Pid, job: Job)   // a new process with whatever snapshot it found
    | Acquire(p: Pid)
    | SetAside(p: Pid)             // the file is garbled: move it away and start over
    | Load(p: Pid)
    | CallSucceeds(p: Pid)
    | CallFails(p: Pid)            // the callback returns the error, nothing is saved
    | Finish(p: Pid)               // the callback returned without error
    | Rename(p: Pid)
    | Stop(p: Pid)                 // normal end, error return or crash, in any phase; the lock is dropped
    | Garble(content: string)      // the environment damages the file

  ghost function Plan(job: Job, base: Data): Run {
    Exec(base, job, Smooth, false)
  }

  predicate Critical(ph: Phase) {
    ph.Locked? || ph.Applying? || ph.Saving? || ph.Published?
  }

  function Put(w: World, p: Pid, ph: Phase): World {
    w.(procs := w.procs[p := ph])
  }

  function Leave(w: World, p: Pid): World {
    Put(w, p, Ended).(lock := if w.lock == Some(p) then None else w.lock)
  }

  function Append(w: World, c: Call): World {
    w.(site := w.site.(trace := w.site.trace + [c]))
  }

  /** One step, or None where it is not enabled. */
  ghost function Perform(w: World, s: Step): Option<World> {
    match s
    case Discover(p, job) =>
      if p in w.procs then None else Some(Put(w, p, Waiting(job)))
    case Acquire(p) =>
      if p in w.procs && w.procs[p].Waiting? && w.lock == None
      then Some(Put(w, p, Locked(w.procs[p].job)).(lock := Some(p)))
      else None
    case SetAside(p) =>
      if p in w.procs && w.procs[p].Locked? && w.site.file.Garbled?
      then Some(Put(w, p, Applying(w.procs[p].job, NEW_DATA, 0)).(
                  site := w.site.(file := Missing, backups := w.site.backups + [w.site.file.content])))
      else None
    case Load(p) =>
      if p in w.procs && w.procs[p].Locked? && !w.site.file.Garbled?
      then Some(Put(w, p, Applying(w.procs[p].job, Base(w.site.file), 0)))
      else None
    case CallSucceeds(p) =>
      if p in w.procs && w.procs[p].Applying? then
        var ph := w.procs[p];
        var plan := Plan(ph.job, ph.base);
        if ph.calls < |plan.calls|
        then Some(Append(Put(w, p, ph.(calls := ph.calls + 1)), plan.calls[ph.calls]))
        else None
      else None
    case CallFails(p) =>
      if p in w.procs && w.procs[p].Applying? then
        var ph := w.procs[p];
        var plan := Plan(ph.job, ph.base);
        if ph.calls < |plan.calls|
        then Some(Append(Leave(w, p), plan.calls[ph.calls].(ok := false)))
        else None
      else None
    case Finish(p) =>
      if p in w.procs && w.procs[p].Applying? then
        var ph := w.procs[p];
        var plan := Plan(ph.job, ph.base);
        if ph.calls == |plan.calls| && plan.status == Done then Some(Put(w, p, Saving(ph.job, ph.base))) else None
      else None
    case Rename(p) =>
      if p in w.procs && w.procs[p].Saving? then
        var ph := w.procs[p];
        Some(Put(w, p, Published).(site := w.site.(file := Valid(Plan(ph.job, ph.base).data))))
      else None
    case Stop(p) =>
      if p in w.procs && w.procs[p] != Ended then Some(Leave(w, p)) else None
    case Garble(content) =>
      Some(w.(site := w.site.(file := Garbled(content))))
  }

  /** The world after a run of steps, if all of them were enabled. */
  ghost function Execute(run: seq<Step>): Option<World> {
    if run == [] then Some(START)
    else
      var before := Execute(run[..|run| - 1]);
      if before.None? then None else Perform(before.value, run[|run| - 1])
  }

  // ----- The history of a run -----

  /** What has been settled so far, and damage done to the file while a callback was under
      way, which counts only if that callback does not overwrite it. */
  datatype Log = Log(settled: seq<Entry>, late: Option<string>)

  function Settle(log: Log, e: Entry): Log {
    Log(log.settled + [e] + (if log.late.Some? then [Damage(log.late.value)] else []), None)
  }

  /** Someone holds the lock and has read the file, but has not replaced it. */
  predicate Busy(w: World) {
    w.lock.Some? && w.lock.value in w.procs && (w.procs[w.lock.value].Applying? || w.procs[w.lock.value].Saving?)
  }

  ghost function Note(w: World, s: Step, log: Log): Log {
    match s
    case SetAside(p) => log.(settled := log.settled + [Quarantine])
    case CallFails(p) =>
      if p in w.procs && w.procs[p].Applying?
      then Settle(log, Attempt(w.procs[p].job, FailAt(w.procs[p].calls), false)) else log
    case Rename(p) =>
      if p in w.procs && w.procs[p].Saving?
      then Log(log.settled + [Attempt(w.procs[p].job, Smooth, true)], None) else log
    case Stop(p) =>
      if p in w.procs && w.procs[p].Applying? then Settle(log, Attempt(w.procs[p].job, DieAt(w.procs[p].calls), false))
      else if p in w.procs && w.procs[p].Saving? then Settle(log, Attempt(w.procs[p].job, Smooth, false))
      else log
    case Garble(content) =>
      if Busy(w) then log.(late := Some(content)) else log.(settled := log.settled + [Damage(content)])
    case _ => log
  }

  ghost function LogOf(run: seq<Step>): Log {
    if run == [] then Log([], None)
    else
      var prefix := run[..|run| - 1];
      var before := Execute(prefix);
      if before.None? then LogOf(prefix) else Note(before.value, run[|run| - 1], LogOf(prefix))
  }

  /** The settled history, completed by the callback that is under way, if any. */
  ghost function HistoryOf(w: World, log: Log): seq<Entry> {
    if !Busy(w) then log.settled
    else
      var ph := w.procs[w.lock.value];
      var e := Attempt(ph.job, if ph.Applying? then DieAt(ph.calls) else Smooth, false);
      Settle(log, e).settled
  }

  // ----- The invariant -----

  ghost predicate Exclusive(w: World) {
    && (forall p | p in w.procs :: Critical(w.procs[p]) <==> w.lock == Some(p))
    && (w.lock.Some? ==> w.lock.value in w.procs)
  }

  function Overlay(f: File, late: Option<string>): File {
    if late.Some? then Garbled(late.value) else f
  }

  ghost predicate Recorded(w: World, log: Log) {
    var past := Replay(log.settled);
    && w.site.backups == past.backups
    && w.site.file == Overlay(past.file, log.late)
    && if Busy(w) then
         var ph := w.procs[w.lock.value];
         var plan := Plan(ph.job, ph.base);
         && !past.file.Garbled? && ph.base == Base(past.file)
         && (ph.Applying? ==> ph.calls <= |plan.calls| && w.site.trace == past.trace + plan.calls[..ph.calls])
         && (ph.Saving? ==> plan.status == Done && w.site.trace == past.trace + plan.calls)
       else
         log.late.None? && w.site.trace == past.trace
  }

  lemma ReplaySettle(log: Log, e: Entry)
    ensures var past := Advance(Replay(log.settled), e);
            Replay(Settle(log, e).settled) == past.(file := Overlay(past.file, log.late))
  {
    ReplayLast(log.settled, e);
    if log.late.Some? {
      ReplayLast(log.settled + [e], Damage(log.late.value));
    } else {
      assert Settle(log, e).settled == log.settled + [e];
    }
  }

  lemma StepExclusive(w: World, s: Step)
    requires Exclusive(w) && Perform(w, s).Some?
    ensures Exclusive(Perform(w, s).value)
  {
  }

  lemma StopRecorded(w: World, p: Pid, log: Log)
    requires Exclusive(w) && Recorded(w, log) && Perform(w, Stop(p)).Some?
    ensures Recorded(Perform(w, Stop(p)).value, Note(w, Stop(p), log))
  {
    var ph := w.procs[p];
    if ph.Applying? {
      assert w.lock == Some(p);
      var e := Attempt(ph.job, DieAt(ph.calls), false);
      ReplaySettle(log, e);
      ExecCourse(ph.base, ph.job, DieAt(ph.calls));
      var plan := Plan(ph.job, ph.base);
      assert ph.calls == |plan.calls| ==> plan.calls[..ph.calls] == plan.calls;
    } else if ph.Saving? {
      assert w.lock == Some(p);
      ReplaySettle(log, Attempt(ph.job, Smooth, false));
    }
  }

  lemma CallFailsRecorded(w: World, p: Pid, log: Log)
    requires Exclusive(w) && Recorded(w, log) && Perform(w, CallFails(p)).Some?
    ensures Recorded(Perform(w, CallFails(p)).value, Note(w, CallFails(p), log))
  {
    var ph := w.procs[p];
    assert w.lock == Some(p);
    ReplaySettle(log, Attempt(ph.job, FailAt(ph.calls), false));
    ExecCourse(ph.base, ph.job, FailAt(ph.calls));
    var plan := Plan(ph.job, ph.base);
    var c := plan.calls[ph.calls].(ok := false);
    var trace := Replay(log.settled).trace;
    assert trace + plan.calls[..ph.calls] + [c] == trace + (plan.calls[..ph.calls] + [c]);
  }

  /** Steps that change the file. */
  lemma FileStepRecorded(w: World, s: Step, log: Log)
    requires Exclusive(w) && Recorded(w, log) && Perform(w, s).Some? && (s.SetAside? || s.Rename? || s.Garble?)
    ensures Recorded(Perform(w, s).value, Note(w, s, log))
  {
  }

  /** Steps that change neither the file nor the history. */
  lemma QuietStepRecorded(w: World, s: Step, log: Log)
    requires Exclusive(w) && Recorded(w, log) && Perform(w, s).Some?
    requires s.Discover? || s.Acquire? || s.Load? || s.CallSucceeds? || s.Finish?
    ensures Recorded(Perform(w, s).value, Note(w, s, log))
  {
    hide Replay;
  }

  lemma StepRecorded(w: World, s: Step, log: Log)
    requires Exclusive(w) && Recorded(w, log) && Perform(w, s).Some?
    ensures Recorded(Perform(w, s).value, Note(w, s, log))
  {
    match s
    case CallFails(p) => CallFailsRecorded(w, p, log);
    case Stop(p) => StopRecorded(w, p, log);
    case SetAside(_) => FileStepRecorded(w, s, log);
    case Rename(_) => FileStepRecorded(w, s, log);
    case Garble(_) => FileStepRecorded(w, s, log);
    case _ => QuietStepRecorded(w, s, log);
  }

  lemma {:induction false} RunRecorded(run: seq<Step>)
    requires Execute(run).Some?
    ensures Exclusive(Execute(run).value)
    ensures Recorded(Execute(run).value, LogOf(run))
  {
    if run != [] {
      var prefix, s := run[..|run| - 1], run[|run| - 1];
      RunRecorded(prefix);
      StepExclusive(Execute(prefix).value, s);
      StepRecorded(Execute(prefix).value, s, LogOf(prefix));
    }
  }

  /** What the linearisation rests on: since the lock can be taken only while it is free, the
      processes between taking and dropping it are never two. */
  lemma MutualExclusion(run: seq<Step>, p: Pid, q: Pid)
    requires Execute(run).Some?
    requires var w := Execute(run).value;
             p in w.procs && q in w.procs && Critical(w.procs[p]) && Critical(w.procs[q])
    ensures p == q
  {
    RunRecorded(run);
  }

  // ----- The theorems, over every interleaving -----

  /** Linearisation: at every moment of every concurrent run, the state file, the preserved
      files and the locate calls are those of one sequential history, in which each callback
      starts from what the one before it published. No update is lost and none is invented. */
  lemma EveryRunIsAHistory(run: seq<Step>)
    requires Execute(run).Some?
    ensures Replay(HistoryOf(Execute(run).value, LogOf(run))) == Execute(run).value.site
  {
    RunRecorded(run);
    var w, log := Execute(run).value, LogOf(run);
    if Busy(w) {
      var ph := w.procs[w.lock.value];
      var plan := Plan(ph.job, ph.base);
      if ph.Applying? {
        ExecCourse(ph.base, ph.job, DieAt(ph.calls));
        assert ph.calls == |plan.calls| ==> plan.calls[..ph.calls] == plan.calls;
        ReplaySettle(log, Attempt(ph.job, DieAt(ph.calls), false));
      } else {
        ReplaySettle(log, Attempt(ph.job, Smooth, false));
      }
    }
  }

  /** In every concurrent run, each Off follows a successful On for the same bay. */
  lemma ConcurrentOwnershipSafety(run: seq<Step>)
    requires Execute(run).Some?
    ensures OffsJustified(Execute(run).value.site.trace)
  {
    EveryRunIsAHistory(run);
    OwnershipSafety(HistoryOf(Execute(run).value, LogOf(run)));
  }

  /** In every concurrent run, a readable state file and the hardware agree on every key that
      no unpublished transaction has touched, even while a callback is under way. */
  lemma ConcurrentBoundedDrift(run: seq<Step>, key: string)
    requires Execute(run).Some? && !Execute(run).value.site.file.Garbled?
    requires key !in Suspect(HistoryOf(Execute(run).value, LogOf(run)))
    ensures var site := Execute(run).value.site;
            key in Base(site.file).managed <==> Lit(site.trace, key)
  {
    EveryRunIsAHistory(run);
    BoundedDrift(HistoryOf(Execute(run).value, LogOf(run)), key);
  }

  /** In every concurrent run, a remembered bay is the one of the latest published snapshot
      that verified the GUID, however stale the snapshots of the other processes are. */
  lemma ConcurrentCacheProvenance(run: seq<Step>, guid: string)
    requires Execute(run).Some? && !Execute(run).value.site.file.Garbled?
    ensures Holds(Base(Execute(run).value.site.file).mappings, guid,
                  LastVerified(HistoryOf(Execute(run).value, LogOf(run)), guid))
  {
    EveryRunIsAHistory(run);
    CacheProvenance(HistoryOf(Execute(run).value, LogOf(run)), guid);
  }

  // ----- No second On -----

  predicate NoQuarantine(g: seq<Entry>) {
    forall i | 0 <= i < |g| :: g[i] != Quarantine
  }

  lemma SettleAdds(log: Log, e: Entry) returns (g: seq<Entry>)
    requires e != Quarantine
    ensures Settle(log, e).settled == log.settled + g && NoQuarantine(g)
  {
    g := [e] + (if log.late.Some? then [Damage(log.late.value)] else []);
  }

  lemma NoteAdds(w: World, s: Step, log: Log) returns (g: seq<Entry>)
    requires !s.SetAside?
    ensures Note(w, s, log).settled == log.settled + g && NoQuarantine(g)
  {
    g := [];
    match s
    case CallFails(p) =>
      if p in w.procs && w.procs[p].Applying? {
        g := SettleAdds(log, Attempt(w.procs[p].job, FailAt(w.procs[p].calls), false));
      }
    case Rename(p) =>
      if p in w.procs && w.procs[p].Saving? { g := [Attempt(w.procs[p].job, Smooth, true)]; }
    case Stop(p) =>
      if p in w.procs && w.procs[p].Applying? {
        g := SettleAdds(log, Attempt(w.procs[p].job, DieAt(w.procs[p].calls), false));
      } else if p in w.procs && w.procs[p].Saving? {
        g := SettleAdds(log, Attempt(w.procs[p].job, Smooth, false));
      }
    case Garble(content) =>
      if !Busy(w) { g := [Damage(content)]; }
    case _ =>
  }

  /** Steps only ever add to the settled history. */
  lemma {:induction false} LogGrows(run: seq<Step>, steps: seq<Step>) returns (g: seq<Entry>)
    requires Execute(run + steps).Some? && forall i | 0 <= i < |steps| :: !steps[i].SetAside?
    ensures Execute(run).Some?
    ensures LogOf(run + steps).settled == LogOf(run).settled + g && NoQuarantine(g)
    decreases |steps|
  {
    hide Perform, Note;
    if steps == [] {
      assert run + steps == run;
      g := [];
    } else {
      var last := |steps| - 1;
      assert (run + steps)[..|run + steps| - 1] == run + steps[..last];
      var before := LogGrows(run, steps[..last]);
      var more := NoteAdds(Execute(run + steps[..last]).value, steps[last], LogOf(run + steps[..last]));
      g := before + more;
      assert LogOf(run).settled + before + more == LogOf(run).settled + g;
    }
  }

  /** The history of a run that goes on, from a moment at which no callback is under way. */
  lemma HistoryGrows(run: seq<Step>, steps: seq<Step>) returns (g: seq<Entry>)
    requires Execute(run + steps).Some? && Execute(run).Some? && !Busy(Execute(run).value)
    requires forall i | 0 <= i < |steps| :: !steps[i].SetAside?
    ensures AdvanceAll(Execute(run).value.site, g) == Execute(run + steps).value.site && NoQuarantine(g)
  {
    hide Perform, Note, Execute, AdvanceAll, LogOf;
    EveryRunIsAHistory(run);
    EveryRunIsAHistory(run + steps);
    g := LogGrows(run, steps);
    var w, log := Execute(run + steps).value, LogOf(run + steps);
    var settled := LogOf(run).settled;
    if Busy(w) {
      var ph := w.procs[w.lock.value];
      var more := SettleAdds(log, Attempt(ph.job, if ph.Applying? then DieAt(ph.calls) else Smooth, false));
      assert settled + g + more == settled + (g + more);
      g := g + more;
    }
    AdvanceConcat(EMPTY_SITE, settled, g);
  }

  lemma NothingLost(s: Site, g: seq<Entry>)
    requires NoQuarantine(g)
    ensures !Loses(s, g)
  {
  }

  /** In every concurrent run that sets no garbled file aside, from any moment at which no
      callback is under way: an LED the file records is not switched on again before it was
      switched off, whatever the processes do, fail at or leave unsaved. */
  lemma ConcurrentNoSecondOn(run: seq<Step>, steps: seq<Step>, key: string)
    requires Execute(run + steps).Some? && Execute(run).Some? && !Busy(Execute(run).value)
    requires forall i | 0 <= i < |steps| :: !steps[i].SetAside?
    requires var site := Execute(run).value.site; !site.file.Garbled? && key in Base(site.file).managed
    ensures var before, after := Execute(run).value.site.trace, Execute(run + steps).value.site.trace;
            |before| <= |after| && OnlyAfterOff(after, |before|, key)
  {
    hide Perform, Execute, LogOf;
    var g := HistoryGrows(run, steps);
    var site := Execute(run).value.site;
    NothingLost(site, g);
    EveryRunIsAHistory(run);
    ReplayWellKeyed(HistoryOf(Execute(run).value, LogOf(run)));
    NoSecondOn(site, g, key);
  }

  // ----- Interleaved copies of one event -----

  /** For any number of processes handling one event with an id, in any interleaving and with
      any snapshots, crashes, failed saves and damage, and whatever happened before: once one of
      them has published, no later one adds a locate call, neither when it has ended nor while it
      is still inside its callback, until a garbled file is set aside or another event with an id
      is published for the vdev. */
  lemma ConcurrentDuplicates(run: seq<Step>, event: Event, i: nat, j: nat)
    requires Execute(run).Some?
    requires var h := HistoryOf(Execute(run).value, LogOf(run));
             && i < j < |h| && PublishesFor(h, i, event.guid) && SameEvent(h[i].job, event)
             && h[j].Attempt? && SameEvent(h[j].job, event)
             && forall m | i < m < j :: !Disturbs(h, m, event)
    ensures var h := HistoryOf(Execute(run).value, LogOf(run));
            && Replay(h) == Execute(run).value.site
            && Replay(h[..j + 1]).trace == Replay(h[..j]).trace
  {
    hide Execute, LogOf, Exec, Replay, HistoryOf, Fingerprint;
    EveryRunIsAHistory(run);
    AtMostOneActs(HistoryOf(Execute(run).value, LogOf(run)), event, i, j);
  }

  /** In every concurrent run, an event is taken for a duplicate if and only if it has an id and
      the fingerprint of the last event published for its vdev. */
  lemma ConcurrentIgnoredIff(run: seq<Step>, event: Event)
    requires Execute(run).Some? && !Execute(run).value.site.file.Garbled?
    ensures var last := LastPublished(HistoryOf(Execute(run).value, LogOf(run)), event.guid);
            Duplicate(Base(Execute(run).value.site.file), event) <==>
            event.id != "" && last.Some? && Fingerprint(last.value) == Fingerprint(event)
  {
    hide Execute, LogOf, Exec, Replay, HistoryOf, Fingerprint;
    EveryRunIsAHistory(run);
    IgnoredIff(HistoryOf(Execute(run).value, LogOf(run)), event);
  }
}
