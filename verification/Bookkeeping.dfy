/** How far the recorded LEDs can drift from what the hardware was told. */
module Bookkeeping {
  import opened Types
  import opened EngineSpec
  import opened Course
  import opened Ledger
  import opened History

  /** The last call for this key, successful or not, was On. */
  predicate Lit(t: seq<Call>, key: string) {
    if t == [] then false
    else
      var last := t[|t| - 1];
      if last.bay.Key() == key then last.action == On else Lit(t[..|t| - 1], key)
  }

  function Touched(t: seq<Call>): set<string> {
    set c | c in t :: c.bay.Key()
  }

  function LitKeys(t: seq<Call>): set<string> {
    set c | c in t && Lit(t, c.bay.Key()) :: c.bay.Key()
  }

  predicate AllOk(t: seq<Call>) {
    forall i | 0 <= i < |t| :: t[i].ok
  }

  /** The calls of one key strictly alternate, starting with On. */
  ghost predicate Alternates(t: seq<Call>) {
    forall i | 0 <= i < |t| :: t[i].action == On <==> !Lit(t[..i], t[i].bay.Key())
  }

  lemma LitSnoc(t: seq<Call>, c: Call, key: string)
    ensures Lit(t + [c], key) == if c.bay.Key() == key then c.action == On else Lit(t, key)
  {
  }

  /** On one key, successful legal calls keep the ledger equal to the last call. */
  lemma {:induction false} LegalCallsTrack(t: seq<Call>, own: Owned, calls: seq<Call>, key: string)
    requires Legal(own, calls) && AllOk(calls)
    requires key !in Touched(calls) ==> (key in own <==> Lit(t, key))
    ensures key in After(own, calls) <==> Lit(t + calls, key)
    decreases calls
  {
    hide Bay.Key;
    if calls == [] {
      assert t + calls == t;
    } else {
      var c := calls[0];
      LitSnoc(t, c, key);
      assert t + [c] + calls[1..] == t + calls;
      assert Touched(calls) == Touched(calls[1..]) + {c.bay.Key()} by {
        assert calls == [c] + calls[1..];
      }
      LegalCallsTrack(t + [c], Post(own, c), calls[1..], key);
    }
  }

  /** Calls that never touch a key leave both the ledger and the last call of it alone,
      whether or not the calls succeed. */
  lemma {:induction false} UntouchedKept(t: seq<Call>, own: Owned, calls: seq<Call>, key: string)
    requires key !in Touched(calls)
    ensures key in After(own, calls) <==> key in own
    ensures Lit(t + calls, key) == Lit(t, key)
    decreases calls
  {
    hide Bay.Key;
    if calls == [] {
      assert t + calls == t;
    } else {
      var c := calls[0];
      assert c in calls;
      LitSnoc(t, c, key);
      assert t + [c] + calls[1..] == t + calls;
      assert Touched(calls[1..]) <= Touched(calls);
      UntouchedKept(t + [c], Post(own, c), calls[1..], key);
    }
  }

  lemma {:induction false} LitIsTouched(t: seq<Call>, key: string)
    ensures Lit(t, key) ==> key in LitKeys(t)
  {
    hide Bay.Key;
    if Lit(t, key) {
      var i := LastCall(t, key);
      assert t[i] in t;
    }
  }

  lemma {:induction false} LastCall(t: seq<Call>, key: string) returns (i: nat)
    requires Lit(t, key)
    ensures i < |t| && t[i].bay.Key() == key
  {
    hide Bay.Key;
    i := |t| - 1;
    if t[i].bay.Key() != key {
      i := LastCall(t[..|t| - 1], key);
    }
  }

  /** The keys on which the state file may disagree with the hardware: those touched by a
      transaction that was not published, and those still lit when a corrupt file was set
      aside. Publishing a transaction settles every key it touches. */
  ghost function Suspect(h: seq<Entry>): set<string> {
    if h == [] then {}
    else
      var prefix, e := h[..|h| - 1], h[|h| - 1];
      var before := Replay(prefix);
      match e
      case Damage(_) => Suspect(prefix)
      case Quarantine => if before.file.Garbled? then LitKeys(before.trace) else Suspect(prefix)
      case Attempt(job, fate, published) =>
        if before.file.Garbled? then Suspect(prefix)
        else
          var r := Exec(Base(before.file), job, fate, false);
          if published && r.status == Done then Suspect(prefix) - Touched(r.calls)
          else Suspect(prefix) + Touched(r.calls)
  }

  lemma DoneMeansAllOk(data: Data, job: Job, fate: Fate)
    requires Exec(data, job, fate, false).status == Done
    ensures AllOk(Exec(data, job, fate, false).calls)
  {
    ExecCourse(data, job, fate);
  }

  /** Away from the suspect keys, an LED is recorded as managed exactly when the last call
      the hardware saw for it was On. */
  lemma {:induction false} BoundedDrift(h: seq<Entry>, key: string)
    requires !Replay(h).file.Garbled? && key !in Suspect(h)
    ensures key in Base(Replay(h).file).managed <==> Lit(Replay(h).trace, key)
    decreases |h|, 0
  {
    if h != [] {
      var prefix, e := h[..|h| - 1], h[|h| - 1];
      var before := Replay(prefix);
      if e == Quarantine && before.file.Garbled? {
        LitIsTouched(before.trace, key);
      } else if e == Quarantine {
        BoundedDrift(prefix, key);
      } else {
        DriftAfterAttempt(prefix, e, key);
      }
    }
  }

  lemma {:induction false} DriftAfterAttempt(prefix: seq<Entry>, e: Entry, key: string)
    requires e.Attempt? && !Replay(prefix).file.Garbled? && key !in Suspect(prefix + [e])
    ensures key in Base(Replay(prefix + [e]).file).managed <==> Lit(Replay(prefix + [e]).trace, key)
    decreases |prefix|, 1
  {
    var before := Replay(prefix);
    var base := Base(before.file);
    var own := Bays(base.managed);
    var r := Exec(base, e.job, e.fate, false);
    ReplayLast(prefix, e);
    assert (prefix + [e])[..|prefix + [e]| - 1] == prefix;
    ReplayWellKeyed(prefix);
    ExecAccounts(base, e.job, e.fate, false);
    if key !in Touched(r.calls) {
      BoundedDrift(prefix, key);
      UntouchedKept(before.trace, own, r.calls, key);
    } else {
      DoneMeansAllOk(base, e.job, e.fate);
      LegalCallsTrack(before.trace, own, r.calls, key);
    }
    assert key in Bays(r.data.managed) <==> key in r.data.managed;
  }

  // ----- Runs in which every transaction is published -----

  ghost predicate Committed(h: seq<Entry>) {
    forall i | 0 <= i < |h| ::
      && h[i].Attempt? && h[i].published
      && Exec(Base(Replay(h[..i]).file), h[i].job, h[i].fate, false).status == Done
  }

  ghost predicate Exact(own: Owned, t: seq<Call>) {
    forall key :: key in own <==> Lit(t, key)
  }

  lemma {:induction false} LegalCallsAlternate(t: seq<Call>, own: Owned, calls: seq<Call>)
    requires Alternates(t) && Exact(own, t) && Legal(own, calls) && AllOk(calls)
    ensures Alternates(t + calls) && Exact(After(own, calls), t + calls)
    decreases calls
  {
    hide Bay.Key;
    if calls == [] {
      assert t + calls == t;
    } else {
      var c := calls[0];
      var t' := t + [c];
      forall key ensures key in Post(own, c) <==> Lit(t', key) {
        LitSnoc(t, c, key);
      }
      forall i | 0 <= i < |t'| ensures t'[i].action == On <==> !Lit(t'[..i], t'[i].bay.Key()) {
        assert t'[..i] == t[..i];
        assert t[..|t|] == t;
      }
      assert t' + calls[1..] == t + calls;
      LegalCallsAlternate(t', Post(own, c), calls[1..]);
    }
  }

  /** When every transaction is published, the bookkeeping is exact: on each key the calls
      strictly alternate On, Off, On, ..., and the managed LEDs are precisely the keys whose
      last call was On. */
  lemma {:induction false} ExactBookkeeping(h: seq<Entry>)
    requires Committed(h)
    ensures !Replay(h).file.Garbled?
    ensures Alternates(Replay(h).trace)
    ensures Exact(Bays(Base(Replay(h).file).managed), Replay(h).trace)
  {
    if h != [] {
      var prefix, e := h[..|h| - 1], h[|h| - 1];
      assert Committed(prefix) by {
        forall i | 0 <= i < |prefix| ensures prefix[..i] == h[..i] {}
      }
      ExactBookkeeping(prefix);
      var before := Replay(prefix);
      var base := Base(before.file);
      var r := Exec(base, e.job, e.fate, false);
      assert prefix == h[..|h| - 1];
      ReplayWellKeyed(prefix);
      ExecAccounts(base, e.job, e.fate, false);
      DoneMeansAllOk(base, e.job, e.fate);
      LegalCallsAlternate(before.trace, Bays(base.managed), r.calls);
    }
  }

  // ----- No second On without an Off, in any run -----

  predicate SwitchedOff(t: seq<Call>, from: nat, to: nat, key: string)
    requires from <= to <= |t|
  {
    exists j | from <= j < to :: t[j].ok && t[j].action == Off && t[j].bay.Key() == key
  }

  /** Since position from, every On for this key came after a successful Off for it. */
  ghost predicate OnlyAfterOff(t: seq<Call>, from: nat, key: string)
    requires from <= |t|
  {
    forall i | from <= i < |t| && t[i].action == On && t[i].bay.Key() == key ::
      SwitchedOff(t, from, i, key)
  }

  lemma {:induction false} LegalOnNeedsOff(t: seq<Call>, from: nat, own: Owned, calls: seq<Call>, key: string)
    requires from <= |t| && Legal(own, calls)
    requires OnlyAfterOff(t, from, key)
    requires key in own || SwitchedOff(t, from, |t|, key)
    ensures OnlyAfterOff(t + calls, from, key)
    ensures key in After(own, calls) || SwitchedOff(t + calls, from, |t + calls|, key)
    decreases calls
  {
    hide Bay.Key;
    if calls == [] {
      assert t + calls == t;
    } else {
      var c := calls[0];
      var t' := t + [c];
      forall i | from <= i < |t'| && t'[i].action == On && t'[i].bay.Key() == key
        ensures SwitchedOff(t', from, i, key)
      {
        if i < |t| {
          var j :| from <= j < i && t[j].ok && t[j].action == Off && t[j].bay.Key() == key;
          assert t'[j] == t[j];
        } else {
          var j :| from <= j < |t| && t[j].ok && t[j].action == Off && t[j].bay.Key() == key;
          assert t'[j] == t[j];
        }
      }
      if SwitchedOff(t, from, |t|, key) {
        var j :| from <= j < |t| && t[j].ok && t[j].action == Off && t[j].bay.Key() == key;
        assert t'[j] == t[j];
      } else if key !in Post(own, c) {
        assert t'[|t|] == c;
      }
      assert t' + calls[1..] == t + calls;
      LegalOnNeedsOff(t', from, Post(own, c), calls[1..], key);
    }
  }

  lemma StaysSwitchedOff(t: seq<Call>, from: nat, calls: seq<Call>, key: string)
    requires from <= |t| && SwitchedOff(t, from, |t|, key)
    ensures SwitchedOff(t + calls, from, |t + calls|, key)
  {
    hide Bay.Key;
    var j :| from <= j < |t| && t[j].ok && t[j].action == Off && t[j].bay.Key() == key;
    assert (t + calls)[j] == t[j];
  }

  lemma NothingYet(t: seq<Call>, key: string)
    ensures OnlyAfterOff(t, |t|, key)
  {
  }

  /** The file is lost: somewhere in these entries a garbled file is set aside. */
  ghost predicate Loses(s: Site, g: seq<Entry>) {
    exists i: nat :: i < |g| && g[i] == Quarantine && AdvanceAll(s, g[..i]).file.Garbled?
  }

  lemma LosesPrefix(s: Site, g: seq<Entry>)
    requires g != []
    ensures var last := |g| - 1;
            Loses(s, g) <==> Loses(s, g[..last]) || (g[last] == Quarantine && AdvanceAll(s, g[..last]).file.Garbled?)
  {
    hide AdvanceAll;
    var last := |g| - 1;
    assert forall i: nat | i < last :: g[..last][..i] == g[..i];
  }

  /** An LED recorded as managed is not switched on again before it was switched off, whatever
      fails, crashes or is damaged in between, as long as no garbled file is set aside. */
  lemma {:induction false} NoSecondOn(s: Site, g: seq<Entry>, key: string)
    requires WellKeyed(Base(s.file)) && !s.file.Garbled? && key in Base(s.file).managed
    requires !Loses(s, g)
    ensures |s.trace| <= |AdvanceAll(s, g).trace|
    ensures OnlyAfterOff(AdvanceAll(s, g).trace, |s.trace|, key)
    ensures var s' := AdvanceAll(s, g);
            !s'.file.Garbled? ==>
              && WellKeyed(Base(s'.file))
              && (key in Base(s'.file).managed || SwitchedOff(s'.trace, |s.trace|, |s'.trace|, key))
  {
    hide Exec, Bay.Key, Legal, After, SwitchedOff, OnlyAfterOff, Loses;
    if g == [] {
      NothingYet(s.trace, key);
    } else {
      var prefix, e := g[..|g| - 1], g[|g| - 1];
      LosesPrefix(s, g);
      NoSecondOn(s, prefix, key);
      var before := AdvanceAll(s, prefix);
      if e.Attempt? && !before.file.Garbled? {
        var base := Base(before.file);
        var r := Exec(base, e.job, e.fate, false);
        ExecAccounts(base, e.job, e.fate, false);
        LegalOnNeedsOff(before.trace, |s.trace|, Bays(base.managed), r.calls, key);
        if SwitchedOff(before.trace, |s.trace|, |before.trace|, key) {
          StaysSwitchedOff(before.trace, |s.trace|, r.calls, key);
        }
        assert key in Bays(r.data.managed) <==> key in r.data.managed;
      }
    }
  }
}
