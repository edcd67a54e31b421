/** When an LED can be switched on a second time without having been switched off: exactly after
    the state file was lost. And when an event can act a second time: exactly when it has no id. */
module Relight {
  import opened Types
  import opened Order
  import opened EngineSpec
  import opened Promises
  import opened Ledger
  import opened History
  import opened Bookkeeping

  // ----- A fault event for a disk whose bay is free -----

  /** An event about a disk, in a snapshot that shows only this disk. */
  function Faulted(event: Event, d: Disk): Job {
    Handle(event, On, [d])
  }

  predicate Faults(event: Event, d: Disk) {
    d.guid == event.guid && HasBay(d) && IsFaulted(d.state)
  }

  /** The fault lights the disk's bay and records it. */
  lemma FaultLights(data: Data, event: Event, d: Disk)
    requires Faults(event, d) && !Duplicate(data, event) && d.bay.value.Key() !in data.managed
    ensures var r := Exec(data, Faulted(event, d), Smooth, false);
            && r.status == Done && r.calls == [Call(d.bay.value, On, true)]
            && r.data.managed == data.managed[d.bay.value.Key() := ManagedLED(event.pool, d.guid, d.bay.value)]
            && r.data.lastEvents == Mark(data, event, false).lastEvents
  {
    hide Bay.Key, Fingerprint, Refresh;
    assert FindDisk([d], event.guid) == Some(d);
  }

  /** The one thing a duplicate does is nothing. */
  lemma DuplicateRests(data: Data, event: Event, d: Disk)
    requires Duplicate(data, event)
    ensures Exec(data, Faulted(event, d), Smooth, false).calls == []
  {
  }

  lemma CleanupOfOne(data: Data, key: string)
    requires data.managed.Keys == {key}
    ensures var r := Exec(data, Cleanup, Smooth, false);
            && r.status == Done && r.calls == [Call(data.managed[key].bay, Off, true)]
            && r.data.managed == map[] && r.data.lastEvents == data.lastEvents
  {
    hide Refresh;
    ListingOfOne(key);
    var start := Refreshed(data, Cleanup);
    assert start.managed.Keys == {key} && Listing(start.managed.Keys) == [key];
    assert [key][1..] == [];
    var rest := Clear(Forget(start, key), [], Smooth, false);
    assert Clear(start, [key], Smooth, false) ==
           Onto([Call(start.managed[key].bay, Off, true)],
                [Operation(start.managed[key].guid, start.managed[key].bay, Off, true, false)], rest);
    assert Forget(start, key).managed == map[];
  }

  // ----- Losing the state file -----

  /** Fault, damage, quarantine, fault: the same LED is switched on twice in a row, because
      losing the file forgot that it is on. */
  lemma LossRelights(event: Event, d: Disk, content: string)
    requires Faults(event, d)
    ensures var fault := Attempt(Faulted(event, d), Smooth, true);
            Replay([fault, Damage(content), Quarantine, fault]).trace ==
            [Call(d.bay.value, On, true), Call(d.bay.value, On, true)]
  {
    hide Exec, Bay.Key, AdvanceAll;
    var fault := Attempt(Faulted(event, d), Smooth, true);
    assert EMPTY_SITE.trace + [Call(d.bay.value, On, true)] == [Call(d.bay.value, On, true)];
    FaultLights(NEW_DATA, event, d);
    FourEntries(EMPTY_SITE, fault, Damage(content), Quarantine, fault);
  }

  lemma FourEntries(s: Site, a: Entry, b: Entry, c: Entry, d: Entry)
    ensures AdvanceAll(s, [a, b, c]) == Advance(Advance(Advance(s, a), b), c)
    ensures AdvanceAll(s, [a, b, c, d]) == Advance(Advance(Advance(Advance(s, a), b), c), d)
  {
    hide Advance;
    AdvanceLast(s, [], a);
    AdvanceLast(s, [a], b);
    AdvanceLast(s, [a, b], c);
    AdvanceLast(s, [a, b, c], d);
    assert [] + [a] == [a] && [a] + [b] == [a, b] && [a, b] + [c] == [a, b, c] && [a, b, c] + [d] == [a, b, c, d];
  }

  ghost predicate NoOn(t: seq<Call>, from: nat, key: string) {
    forall i | from <= i < |t| :: !(t[i].action == On && t[i].bay.Key() == key)
  }

  lemma {:induction false} NoOnKeepsUnowned(own: Owned, calls: seq<Call>, key: string)
    requires key !in own && NoOn(calls, 0, key)
    ensures key !in After(own, calls)
    decreases calls
  {
    hide Bay.Key;
    if calls != [] {
      assert !(calls[0].action == On && calls[0].bay.Key() == key);
      assert forall i | 0 <= i < |calls[1..]| :: calls[1..][i] == calls[i + 1];
      NoOnKeepsUnowned(Post(own, calls[0]), calls[1..], key);
    }
  }

  lemma NoOnParts(t: seq<Call>, calls: seq<Call>, from: nat, key: string)
    requires from <= |t| && NoOn(t + calls, from, key)
    ensures NoOn(t, from, key) && NoOn(calls, 0, key)
  {
    hide Bay.Key;
    assert forall i | 0 <= i < |t| :: (t + calls)[i] == t[i];
    assert forall i | 0 <= i < |calls| :: (t + calls)[|t| + i] == calls[i];
  }

  lemma {:induction false} TraceGrows(s: Site, g: seq<Entry>)
    ensures |s.trace| <= |AdvanceAll(s, g).trace|
  {
    hide Exec;
    if g != [] { TraceGrows(s, g[..|g| - 1]); }
  }

  /** After a loss, a key that was not lit since is owned by nobody. */
  lemma {:induction false} LossForgets(s: Site, g: seq<Entry>, key: string)
    requires WellKeyed(Base(s.file)) && Loses(s, g)
    requires !AdvanceAll(s, g).file.Garbled? && NoOn(AdvanceAll(s, g).trace, |s.trace|, key)
    ensures key !in Base(AdvanceAll(s, g).file).managed && WellKeyed(Base(AdvanceAll(s, g).file))
  {
    hide Exec, Bay.Key, NoOn, Loses, After, Legal;
    if g == [] {
      LosesNothing(s);
    } else {
      var prefix, e := g[..|g| - 1], g[|g| - 1];
      LosesPrefix(s, g);
      TraceGrows(s, prefix);
      var before := AdvanceAll(s, prefix);
      if e.Attempt? {
        var base := Base(before.file);
        var r := Exec(base, e.job, e.fate, false);
        NoOnParts(before.trace, r.calls, |s.trace|, key);
        LossForgets(s, prefix, key);
        ExecAccounts(base, e.job, e.fate, false);
        assert key !in Bays(base.managed);
        NoOnKeepsUnowned(Bays(base.managed), r.calls, key);
        assert key in Bays(r.data.managed) <==> key in r.data.managed;
      } else if !before.file.Garbled? {
        LossForgets(s, prefix, key);
      }
    }
  }

  lemma LosesNothing(s: Site)
    ensures !Loses(s, [])
  {
  }

  /** Before its first Off, a key that had no improper On had none at all. */
  lemma QuietMeansNoOn(t: seq<Call>, from: nat, key: string)
    requires from <= |t| && OnlyAfterOff(t, from, key) && !SwitchedOff(t, from, |t|, key)
    ensures NoOn(t, from, key)
  {
    hide Bay.Key;
    forall i: nat | from <= i < |t| ensures !(t[i].action == On && t[i].bay.Key() == key) {
    }
  }

  lemma OnTooSoon(t: seq<Call>, from: nat, c: Call)
    requires from <= |t| && c.action == On && !SwitchedOff(t, from, |t|, c.bay.Key())
    ensures !OnlyAfterOff(t + [c], from, c.bay.Key())
  {
    hide Bay.Key;
    var t' := t + [c];
    assert t'[|t|] == c;
    assert forall j | 0 <= j < |t| :: t'[j] == t[j];
    assert !SwitchedOff(t', from, |t|, c.bay.Key());
  }

  /** Nothing has been switched off or improperly on since the key was recorded. */
  ghost predicate Quiet(s: Site, g: seq<Entry>, key: string) {
    var s' := AdvanceAll(s, g);
    && |s.trace| <= |s'.trace| && !s'.file.Garbled?
    && OnlyAfterOff(s'.trace, |s.trace|, key) && !SwitchedOff(s'.trace, |s.trace|, |s'.trace|, key)
  }

  /** A job can come that switches a recorded LED on a second time if and only if, since it was
      recorded, a garbled state file was set aside. */
  lemma SecondOnIffLost(s: Site, g: seq<Entry>, bay: Bay)
    requires WellKeyed(Base(s.file)) && !s.file.Garbled? && bay.Key() in Base(s.file).managed && IsComplete(bay)
    requires Quiet(s, g, bay.Key())
    ensures Loses(s, g) <==>
            exists job, fate, published ::
              var later := AdvanceAll(s, g + [Attempt(job, fate, published)]);
              |s.trace| <= |later.trace| && !OnlyAfterOff(later.trace, |s.trace|, bay.Key())
  {
    hide Exec, Bay.Key, Loses, OnlyAfterOff, SwitchedOff, AdvanceAll;
    var key := bay.Key();
    if Loses(s, g) {
      LossAllowsSecondOn(s, g, bay);
    }
    forall job, fate, published | !Loses(s, g)
      ensures var later := AdvanceAll(s, g + [Attempt(job, fate, published)]);
              |s.trace| <= |later.trace| && OnlyAfterOff(later.trace, |s.trace|, key)
    {
      var g' := g + [Attempt(job, fate, published)];
      assert g'[..|g'| - 1] == g;
      LosesPrefix(s, g');
      NoSecondOn(s, g', key);
    }
  }

  lemma LossAllowsSecondOn(s: Site, g: seq<Entry>, bay: Bay)
    requires WellKeyed(Base(s.file)) && IsComplete(bay) && Quiet(s, g, bay.Key()) && Loses(s, g)
    ensures exists job, fate, published ::
              var later := AdvanceAll(s, g + [Attempt(job, fate, published)]);
              |s.trace| <= |later.trace| && !OnlyAfterOff(later.trace, |s.trace|, bay.Key())
  {
    hide Exec, Bay.Key, Loses, OnlyAfterOff, SwitchedOff, AdvanceAll;
    var s' := AdvanceAll(s, g);
    var event := Event("", "statechange", "tank", "101", "FAULTED", "disk");
    var d := Disk("tank", "101", "sda", "data", "FAULTED", "", "", "", "", "", ErrorCounters(0, 0, 0), Some(bay), []);
    var fault := Attempt(Faulted(event, d), Smooth, true);
    QuietMeansNoOn(s'.trace, |s.trace|, bay.Key());
    LossForgets(s, g, bay.Key());
    FaultLights(Base(s'.file), event, d);
    AdvanceLast(s, g, fault);
    OnTooSoon(s'.trace, |s.trace|, Call(bay, On, true));
  }

  // ----- The same event again -----

  /** Fault, cleanup, and the same event again: it acts a second time if and only if it has no
      id, since then it has no fingerprint to be recognised by. */
  lemma RepeatActsIffNameless(event: Event, d: Disk)
    requires Faults(event, d)
    ensures var fault, bay := Attempt(Faulted(event, d), Smooth, true), d.bay.value;
            Replay([fault, Attempt(Cleanup, Smooth, true), fault]).trace ==
            [Call(bay, On, true), Call(bay, Off, true)] + (if event.id == "" then [Call(bay, On, true)] else [])
  {
    hide Exec, Bay.Key, AdvanceAll;
    var fault, clean := Attempt(Faulted(event, d), Smooth, true), Attempt(Cleanup, Smooth, true);
    var key := d.bay.value.Key();
    FaultLights(NEW_DATA, event, d);
    var lit := Exec(NEW_DATA, fault.job, Smooth, false).data;
    assert lit.managed.Keys == {key};
    CleanupOfOne(lit, key);
    var dark := Exec(lit, Cleanup, Smooth, false).data;
    if event.id == "" {
      FaultLights(dark, event, d);
    } else {
      DuplicateRests(dark, event, d);
    }
    FourEntries(EMPTY_SITE, fault, clean, fault, fault);
  }

  /** An event that finds the vdev online again. */
  lemma OnlineClears(data: Data, event: Event, d: Disk, key: string)
    requires d.guid == event.guid && IsOnline(d.state) && !Duplicate(data, event)
    requires data.managed.Keys == {key} && data.managed[key].guid == event.guid
    ensures var r := Exec(data, Handle(event, Off, [d]), Smooth, false);
            && r.status == Done && r.calls == [Call(data.managed[key].bay, Off, true)]
            && r.data.managed == map[] && r.data.lastEvents == Mark(data, event, false).lastEvents
  {
    hide Fingerprint, Refresh;
    var start := Refreshed(data, Handle(event, Off, [d]));
    assert FindDisk([d], event.guid) == Some(d);
    ListingOfOne(key);
    assert OwnedKeys(start, event.guid) == {key};
    assert [key][1..] == [];
    var rest := Clear(Forget(start, key), [], Smooth, false);
    assert Clear(start, [key], Smooth, false) ==
           Onto([Call(start.managed[key].bay, Off, true)],
                [Operation(start.managed[key].guid, start.managed[key].bay, Off, true, false)], rest);
    assert Forget(start, key).managed == map[];
  }

  /** Fault a, another event b that finds the vdev online, and a again: a acts a second time
      although it has an id, because only the last event of a vdev is remembered. */
  lemma RepeatActsAfterAnother(a: Event, b: Event, d: Disk, online: Disk)
    requires Faults(a, d) && a.id != "" && b.id != "" && b.guid == a.guid && Fingerprint(a) != Fingerprint(b)
    requires online.guid == a.guid && IsOnline(online.state)
    ensures var fault, bay := Attempt(Faulted(a, d), Smooth, true), d.bay.value;
            Replay([fault, Attempt(Handle(b, Off, [online]), Smooth, true), fault]).trace ==
            [Call(bay, On, true), Call(bay, Off, true), Call(bay, On, true)]
  {
    hide Exec, Bay.Key, AdvanceAll, Fingerprint;
    var fault, other := Attempt(Faulted(a, d), Smooth, true), Attempt(Handle(b, Off, [online]), Smooth, true);
    var key := d.bay.value.Key();
    FaultLights(NEW_DATA, a, d);
    var lit := Exec(NEW_DATA, fault.job, Smooth, false).data;
    assert lit.managed.Keys == {key};
    OnlineClears(lit, b, online, key);
    var dark := Exec(lit, other.job, Smooth, false).data;
    IdGivesFingerprint(b);
    assert dark.lastEvents[a.guid] == Fingerprint(b);
    FaultLights(dark, a, d);
    FourEntries(EMPTY_SITE, fault, other, fault, fault);
  }

  lemma IdGivesFingerprint(e: Event)
    requires e.id != ""
    ensures Fingerprint(e) != ""
  {
  }
}
