/** The state store's transaction, as the Store class performs it, is one way for the steps of
    the concurrent protocol to unfold: nothing the store does falls outside the protocol, so
    what holds of every protocol run holds of every sequence of updates. */
module Solo {
  import opened Types
  import opened EngineSpec
  import opened Course
  import opened History
  import opened StateStore
  import opened Protocol

  ghost function Continue(w: World, steps: seq<Step>): Option<World> {
    if steps == [] then Some(w)
    else
      var before := Continue(w, steps[..|steps| - 1]);
      if before.None? then None else Perform(before.value, steps[|steps| - 1])
  }

  lemma ContinueLast(w: World, steps: seq<Step>, s: Step)
    ensures var before := Continue(w, steps);
            Continue(w, steps + [s]) == if before.None? then None else Perform(before.value, s)
  {
  }

  lemma {:induction false} ContinueConcat(w: World, a: seq<Step>, mid: World, b: seq<Step>)
    requires Continue(w, a) == Some(mid)
    ensures Continue(w, a + b) == Continue(mid, b)
    decreases |b|
  {
    if b == [] {
      assert a + b == a;
    } else {
      assert (a + b)[..|a + b| - 1] == a + b[..|b| - 1];
      ContinueConcat(w, a, mid, b[..|b| - 1]);
    }
  }

  lemma {:induction false} ContinueRun(run: seq<Step>, w: World, steps: seq<Step>)
    requires Execute(run) == Some(w)
    ensures Execute(run + steps) == Continue(w, steps)
    decreases |steps|
  {
    if steps == [] {
      assert run + steps == run;
    } else {
      assert (run + steps)[..|run + steps| - 1] == run + steps[..|steps| - 1];
      ContinueRun(run, w, steps[..|steps| - 1]);
    }
  }

  lemma Stays(w: World)
    ensures Continue(w, []) == Some(w)
  {
  }

  // ----- One process alone -----

  /** The world while p, alone among processes that are idle, is in this phase. */
  function At(procs: map<Pid, Phase>, p: Pid, ph: Phase, site: Site): World {
    World(site, if Critical(ph) then Some(p) else None, procs[p := ph])
  }

  lemma LastPhase(procs: map<Pid, Phase>, p: Pid, a: Phase, b: Phase)
    ensures procs[p := a][p := b] == procs[p := b]
  {
  }

  lemma Steps(procs: map<Pid, Phase>, p: Pid, job: Job, base: Data, n: nat, site: Site)
    requires n < |Plan(job, base).calls|
    ensures var c := Plan(job, base).calls[n];
            var now := At(procs, p, Applying(job, base, n), site);
            && Perform(now, CallSucceeds(p)) ==
               Some(At(procs, p, Applying(job, base, n + 1), site.(trace := site.trace + [c])))
            && Perform(now, CallFails(p)) ==
               Some(At(procs, p, Ended, site.(trace := site.trace + [c.(ok := false)])))
  {
    hide Exec;
    LastPhase(procs, p, Applying(job, base, n), Applying(job, base, n + 1));
    LastPhase(procs, p, Applying(job, base, n), Ended);
  }

  lemma Stopped(procs: map<Pid, Phase>, p: Pid, ph: Phase, site: Site)
    requires ph != Ended
    ensures Perform(At(procs, p, ph, site), Stop(p)) == Some(At(procs, p, Ended, site))
  {
    LastPhase(procs, p, ph, Ended);
  }

  lemma Saved(procs: map<Pid, Phase>, p: Pid, job: Job, base: Data, site: Site)
    requires Plan(job, base).status == Done
    ensures Perform(At(procs, p, Applying(job, base, |Plan(job, base).calls|), site), Finish(p)) ==
            Some(At(procs, p, Saving(job, base), site))
    ensures Perform(At(procs, p, Saving(job, base), site), Rename(p)) ==
            Some(At(procs, p, Published, site.(file := Valid(Plan(job, base).data))))
  {
    hide Exec;
    LastPhase(procs, p, Applying(job, base, |Plan(job, base).calls|), Saving(job, base));
    LastPhase(procs, p, Saving(job, base), Published);
  }

  lemma Begun(w: World, p: Pid, job: Job)
    requires w.lock == None && p !in w.procs
    ensures Perform(w, Discover(p, job)) == Some(At(w.procs, p, Waiting(job), w.site))
    ensures Perform(At(w.procs, p, Waiting(job), w.site), Acquire(p)) == Some(At(w.procs, p, Locked(job), w.site))
  {
    LastPhase(w.procs, p, Waiting(job), Locked(job));
  }

  lemma FileRead(procs: map<Pid, Phase>, p: Pid, job: Job, site: Site)
    ensures site.file.Garbled? ==>
              Perform(At(procs, p, Locked(job), site), SetAside(p)) ==
              Some(At(procs, p, Applying(job, NEW_DATA, 0), Advance(site, Quarantine)))
    ensures !site.file.Garbled? ==>
              Perform(At(procs, p, Locked(job), site), Load(p)) ==
              Some(At(procs, p, Applying(job, Base(site.file), 0), site))
  {
    hide Exec;
    LastPhase(procs, p, Locked(job), Applying(job, NEW_DATA, 0));
    LastPhase(procs, p, Locked(job), Applying(job, Base(site.file), 0));
  }

  lemma {:induction false} CallsSucceed(procs: map<Pid, Phase>, p: Pid, job: Job, base: Data, n: nat, site: Site)
    returns (steps: seq<Step>)
    requires n <= |Plan(job, base).calls|
    ensures Continue(At(procs, p, Applying(job, base, 0), site), steps) ==
            Some(At(procs, p, Applying(job, base, n), site.(trace := site.trace + Plan(job, base).calls[..n])))
  {
    hide Exec, Continue, Perform, At;
    var calls := Plan(job, base).calls;
    var start := At(procs, p, Applying(job, base, 0), site);
    if n == 0 {
      steps := [];
      Stays(start);
      assert site.trace + calls[..0] == site.trace;
    } else {
      var before := CallsSucceed(procs, p, job, base, n - 1, site);
      ContinueLast(start, before, CallSucceeds(p));
      Steps(procs, p, job, base, n - 1, site.(trace := site.trace + calls[..n - 1]));
      assert site.trace + calls[..n] == site.trace + calls[..n - 1] + [calls[n - 1]];
      steps := before + [CallSucceeds(p)];
    }
  }

  /** From a file that was read to the end of the process. */
  lemma CallbackSteps(procs: map<Pid, Phase>, p: Pid, job: Job, site: Site, fate: Fate, trouble: Trouble)
    returns (steps: seq<Step>)
    requires !site.file.Garbled?
    ensures Continue(At(procs, p, Applying(job, Base(site.file), 0), site), steps) ==
            Some(At(procs, p, Ended, Advance(site, AttemptOf(site.file, job, fate, trouble))))
  {
    hide Exec, Continue, Perform, At;
    var base := Base(site.file);
    var plan := Plan(job, base);
    ExecCourse(base, job, fate);
    var n := if fate.Smooth? || fate.n >= |plan.calls| then |plan.calls| else fate.n;
    steps := CallsSucceed(procs, p, job, base, n, site);
    var start := At(procs, p, Applying(job, base, 0), site);
    var called := site.(trace := site.trace + plan.calls[..n]);
    if n < |plan.calls| && fate.FailAt? {
      ContinueLast(start, steps, CallFails(p));
      Steps(procs, p, job, base, n, called);
      var failed := plan.calls[n].(ok := false);
      assert called.trace + [failed] == site.trace + (plan.calls[..n] + [failed]);
      steps := steps + [CallFails(p)];
    } else if n < |plan.calls| || plan.status != Done {
      assert n == |plan.calls| ==> plan.calls[..n] == plan.calls;
      ContinueLast(start, steps, Stop(p));
      Stopped(procs, p, Applying(job, base, n), called);
      steps := steps + [Stop(p)];
    } else {
      assert plan.calls[..n] == plan.calls;
      var rest := SaveSteps(procs, p, job, base, called, Replaces(trouble));
      ContinueConcat(start, steps, At(procs, p, Applying(job, base, n), called), rest);
      steps := steps + rest;
    }
  }

  lemma SaveSteps(procs: map<Pid, Phase>, p: Pid, job: Job, base: Data, site: Site, replaced: bool)
    returns (steps: seq<Step>)
    requires Plan(job, base).status == Done
    ensures Continue(At(procs, p, Applying(job, base, |Plan(job, base).calls|), site), steps) ==
            Some(At(procs, p, Ended, if replaced then site.(file := Valid(Plan(job, base).data)) else site))
  {
    hide Exec, Continue, Perform, At;
    var start := At(procs, p, Applying(job, base, |Plan(job, base).calls|), site);
    Stays(start);
    Saved(procs, p, job, base, site);
    ContinueLast(start, [], Finish(p));
    steps := [] + [Finish(p)];
    if replaced {
      ContinueLast(start, steps, Rename(p));
      steps := steps + [Rename(p)];
      Stopped(procs, p, Published, site.(file := Valid(Plan(job, base).data)));
    } else {
      Stopped(procs, p, Saving(job, base), site);
    }
    ContinueLast(start, steps, Stop(p));
    steps := steps + [Stop(p)];
  }

  lemma BlockedSteps(w: World, p: Pid, job: Job) returns (steps: seq<Step>)
    requires w.lock == None && p !in w.procs
    ensures Continue(w, steps) == Some(At(w.procs, p, Ended, w.site))
  {
    hide Continue, Perform, At;
    Stays(w);
    Begun(w, p, job);
    ContinueLast(w, [], Discover(p, job));
    Stopped(w.procs, p, Waiting(job), w.site);
    ContinueLast(w, [] + [Discover(p, job)], Stop(p));
    steps := [] + [Discover(p, job)] + [Stop(p)];
  }

  /** Up to the point where the file has been read, or set aside and started over. */
  lemma ReadSteps(w: World, p: Pid, job: Job) returns (steps: seq<Step>)
    requires w.lock == None && p !in w.procs
    ensures var site := if w.site.file.Garbled? then Advance(w.site, Quarantine) else w.site;
            Continue(w, steps) == Some(At(w.procs, p, Applying(job, Base(site.file), 0), site))
  {
    hide Continue, Perform, At, Exec;
    var read := if w.site.file.Garbled? then SetAside(p) else Load(p);
    Stays(w);
    Begun(w, p, job);
    FileRead(w.procs, p, job, w.site);
    ContinueLast(w, [], Discover(p, job));
    ContinueLast(w, [] + [Discover(p, job)], Acquire(p));
    ContinueLast(w, [] + [Discover(p, job)] + [Acquire(p)], read);
    steps := [] + [Discover(p, job)] + [Acquire(p)] + [read];
  }

  /** Every update of the store is a run of the protocol, from any world whose lock is free. */
  lemma UpdateIsARun(run: seq<Step>, p: Pid, job: Job, fate: Fate, trouble: Trouble) returns (steps: seq<Step>)
    requires Execute(run).Some? && Execute(run).value.lock == None && p !in Execute(run).value.procs
    ensures var w := Execute(run).value;
            Execute(run + steps) ==
            Some(World(AdvanceAll(w.site, Episode(w.site.file, job, fate, trouble)), None, w.procs[p := Ended]))
  {
    hide Exec, Continue, Perform, Advance, AdvanceAll, Execute;
    var w := Execute(run).value;
    var before := w.site;
    AdvanceNone(before);
    if Blocked(trouble, before.file.Garbled?) {
      steps := BlockedSteps(w, p, job);
    } else {
      var site := if before.file.Garbled? then Advance(before, Quarantine) else before;
      SiteReadable(before);
      steps := ReadSteps(w, p, job);
      var rest := CallbackSteps(w.procs, p, job, site, fate, trouble);
      ContinueConcat(w, steps, At(w.procs, p, Applying(job, Base(site.file), 0), site), rest);
      steps := steps + rest;
      var attempt := AttemptOf(site.file, job, fate, trouble);
      assert attempt == AttemptOf(before.file, job, fate, trouble);
      EpisodeSite(before, attempt);
    }
    ContinueRun(run, w, steps);
  }

  lemma SiteReadable(s: Site)
    ensures s.file.Garbled? ==> Advance(s, Quarantine).file == Missing && Base(Missing) == Base(s.file)
  {
  }

  lemma EpisodeSite(s: Site, attempt: Entry)
    ensures AdvanceAll(s, (if s.file.Garbled? then [Quarantine] else []) + [attempt]) ==
            Advance(if s.file.Garbled? then Advance(s, Quarantine) else s, attempt)
  {
    hide Exec, AdvanceAll, Advance;
    AdvanceNone(s);
    AdvanceLast(s, [], Quarantine);
    assert [] + [Quarantine] == [Quarantine];
    AdvanceLast(s, if s.file.Garbled? then [Quarantine] else [], attempt);
  }
}
