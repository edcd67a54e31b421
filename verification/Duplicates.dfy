/** When an event is taken for a duplicate: what its fingerprint stands for, which event is
    remembered for a vdev, and that copies of one event act once. */
module Duplicates {
  import opened Types
  import opened Text
  import opened EngineSpec
  import opened Ledger
  import opened History
  import opened Provenance

  // ----- What a fingerprint stands for -----

  lemma FingerprintParts(e: Event)
    ensures Fingerprint(e) != "" <==> e.id != ""
    ensures e.id != "" ==> Fingerprint(e) == e.subclass + ([':'] + e.id)
  {
  }

  /** Two events with ids free of colons have one fingerprint if and only if they agree in
      subclass and id. */
  lemma FingerprintIsOneEvent(a: Event, b: Event)
    requires a.id != "" && b.id != "" && Free(a.id, ':') && Free(b.id, ':')
    ensures Fingerprint(a) == Fingerprint(b) <==> a.subclass == b.subclass && a.id == b.id
  {
    hide Fingerprint;
    FingerprintParts(a);
    FingerprintParts(b);
    if Fingerprint(a) == Fingerprint(b) {
      SplitLast(a.subclass, a.id, b.subclass, b.id, ':');
    }
  }

  /** Whether the text of a fingerprint can be read as another subclass and id. */
  predicate Ambiguous(e: Event)
    requires e.id != ""
  {
    ':' in e.subclass || ':' in e.id[..|e.id| - 1]
  }

  /** An event shares its fingerprint with an event of another subclass or id if and only if its
      subclass contains a colon or its id contains one before its end. */
  lemma FingerprintSharedIff(e: Event)
    requires e.id != ""
    ensures Ambiguous(e) <==>
            exists other: Event :: other.id != "" && Fingerprint(other) == Fingerprint(e)
                                   && (other.subclass != e.subclass || other.id != e.id)
  {
    hide Fingerprint;
    FingerprintParts(e);
    if Ambiguous(e) {
      var subclass, id := OtherReading(e);
      var other := e.(subclass := subclass, id := id);
      FingerprintParts(other);
      assert other.id != "" && Fingerprint(other) == Fingerprint(e);
    }
    forall other: Event | !Ambiguous(e) && other.id != "" && Fingerprint(other) == Fingerprint(e)
      ensures other.subclass == e.subclass && other.id == e.id
    {
      FingerprintParts(other);
      OnlyReading(e, other.subclass, other.id);
    }
  }

  lemma OtherReading(e: Event) returns (subclass: string, id: string)
    requires e.id != "" && Ambiguous(e)
    ensures id != "" && (subclass != e.subclass || id != e.id)
    ensures subclass + ([':'] + id) == e.subclass + ([':'] + e.id)
  {
    if ':' in e.subclass {
      var i :| 0 <= i < |e.subclass| && e.subclass[i] == ':';
      subclass, id := e.subclass[..i], e.subclass[i + 1..] + ([':'] + e.id);
      assert e.subclass == subclass + ([':'] + e.subclass[i + 1..]);
    } else {
      var i :| 0 <= i < |e.id[..|e.id| - 1]| && e.id[..|e.id| - 1][i] == ':';
      subclass, id := e.subclass + ([':'] + e.id[..i]), e.id[i + 1..];
      assert e.id == e.id[..i] + ([':'] + id);
    }
  }

  lemma OnlyReading(e: Event, subclass: string, id: string)
    requires e.id != "" && !Ambiguous(e) && id != ""
    requires subclass + ([':'] + id) == e.subclass + ([':'] + e.id)
    ensures subclass == e.subclass && id == e.id
  {
    var t := e.subclass + ([':'] + e.id);
    assert t[|subclass|] == ':';
    assert forall k | 0 <= k < |e.subclass| :: t[k] == e.subclass[k];
    assert forall k | |e.subclass| < k < |t| - 1 :: t[k] == e.id[..|e.id| - 1][k - |e.subclass| - 1];
    assert |subclass| == |e.subclass|;
    assert t[..|e.subclass|] == e.subclass && t[|e.subclass| + 1..] == e.id;
    assert t[..|subclass|] == subclass && t[|subclass| + 1..] == id;
  }

  /** Two different events that are taken for one. */
  lemma FingerprintsCanCollide(a: Event, b: Event)
    requires a.subclass == "x:y" && a.id == "1" && b.subclass == "x" && b.id == "y:1"
    ensures Fingerprint(a) == Fingerprint(b)
  {
    assert Fingerprint(a) == "x:y:1" == Fingerprint(b);
  }

  // ----- Which event is remembered -----

  /** The run of an entry of a history that is an attempt. */
  ghost function RunAt(h: seq<Entry>, m: nat): Run
    requires m < |h| && h[m].Attempt?
  {
    Exec(Base(Replay(h[..m]).file), h[m].job, h[m].fate, false)
  }

  /** Entry m sets a garbled file aside, and with it all that was remembered. */
  ghost predicate LosesAt(h: seq<Entry>, m: nat)
    requires m < |h|
  {
    h[m] == Quarantine && Replay(h[..m]).file.Garbled?
  }

  /** Entry m publishes the handling of an event with an id for this vdev. */
  ghost predicate PublishesFor(h: seq<Entry>, m: nat, guid: string)
    requires m < |h|
  {
    && h[m].Attempt? && h[m].published && !Replay(h[..m]).file.Garbled? && RunAt(h, m).status == Done
    && h[m].job.Handle? && h[m].job.event.guid == guid && h[m].job.event.id != ""
  }

  /** The latest event with an id whose handling was published for this vdev since the state
      file was last lost. */
  ghost function LastPublished(h: seq<Entry>, guid: string): Option<Event> {
    if h == [] then None
    else
      var last := |h| - 1;
      if LosesAt(h, last) then None
      else if PublishesFor(h, last, guid) then Some(h[last].job.event)
      else LastPublished(h[..last], guid)
  }

  predicate Remembers(data: Data, guid: string, event: Option<Event>) {
    match event
    case None => guid !in data.lastEvents
    case Some(e) => guid in data.lastEvents && data.lastEvents[guid] == Fingerprint(e)
  }

  /** What a job does to the remembered event of a vdev. */
  lemma ExecRemembers(data: Data, job: Job, fate: Fate, guid: string, event: Option<Event>)
    requires Exec(data, job, fate, false).status == Done && Remembers(data, guid, event)
    ensures Remembers(Exec(data, job, fate, false).data, guid,
                      if job.Handle? && job.event.guid == guid && job.event.id != "" then Some(job.event) else event)
  {
    ExecFrame(data, job, fate, false);
    if job.Handle? {
      FingerprintParts(job.event);
    }
  }

  /** Along every history, the event remembered for a vdev is the last published one. */
  lemma {:induction false} MarkProvenance(h: seq<Entry>, guid: string)
    requires !Replay(h).file.Garbled?
    ensures Remembers(Base(Replay(h).file), guid, LastPublished(h, guid))
  {
    hide Exec, Remembers;
    if h == [] {
      NothingRemembered(guid);
    } else {
      var prefix, e := h[..|h| - 1], h[|h| - 1];
      var before := Replay(prefix);
      if !before.file.Garbled? {
        MarkProvenance(prefix, guid);
        if e.Attempt? && e.published && RunAt(h, |h| - 1).status == Done {
          ExecRemembers(Base(before.file), e.job, e.fate, guid, LastPublished(prefix, guid));
        }
      } else {
        NothingRemembered(guid);
      }
    }
  }

  lemma NothingRemembered(guid: string)
    ensures Remembers(NEW_DATA, guid, None)
  {
  }

  /** After any history, an event is ignored as a duplicate if and only if it has an id and its
      fingerprint is that of the last published event of its vdev; with ids free of colons, if
      and only if that event has its very subclass and id. */
  lemma IgnoredIff(h: seq<Entry>, event: Event)
    requires !Replay(h).file.Garbled?
    ensures var last := LastPublished(h, event.guid);
            && (Duplicate(Base(Replay(h).file), event) <==>
                  event.id != "" && last.Some? && Fingerprint(last.value) == Fingerprint(event))
            && (Free(event.id, ':') && (last.Some? ==> Free(last.value.id, ':')) ==>
                  (Duplicate(Base(Replay(h).file), event) <==>
                     event.id != "" && last.Some?
                     && last.value.subclass == event.subclass && last.value.id == event.id))
  {
    hide Replay, Fingerprint;
    MarkProvenance(h, event.guid);
    FingerprintParts(event);
    var last := LastPublished(h, event.guid);
    if last.Some? {
      LastHasId(h, event.guid);
      if event.id != "" && Free(event.id, ':') && Free(last.value.id, ':') {
        FingerprintIsOneEvent(last.value, event);
      }
    }
  }

  lemma {:induction false} LastHasId(h: seq<Entry>, guid: string)
    requires LastPublished(h, guid).Some?
    ensures LastPublished(h, guid).value.id != "" && LastPublished(h, guid).value.guid == guid
  {
    hide Replay, Exec;
    if h != [] && !PublishesFor(h, |h| - 1, guid) { LastHasId(h[..|h| - 1], guid); }
  }

  // ----- Copies of one event act once -----

  predicate SameEvent(job: Job, event: Event) {
    job.Handle? && job.event.guid == event.guid && Fingerprint(job.event) == Fingerprint(event)
  }

  /** Entry m makes the store forget this event: the file is lost, or the handling of another
      event with an id is published for the vdev. */
  ghost predicate Disturbs(h: seq<Entry>, m: nat, event: Event)
    requires m < |h|
  {
    LosesAt(h, m) || (PublishesFor(h, m, event.guid) && Fingerprint(h[m].job.event) != Fingerprint(event))
  }

  lemma PrefixSame(h: seq<Entry>, n: nat, m: nat, event: Event)
    requires m < n <= |h|
    ensures LosesAt(h[..n], m) == LosesAt(h, m)
    ensures PublishesFor(h[..n], m, event.guid) == PublishesFor(h, m, event.guid)
    ensures Disturbs(h[..n], m, event) == Disturbs(h, m, event)
  {
    hide Exec, Replay, Fingerprint;
    assert h[..n][..m] == h[..m];
  }

  lemma {:induction false} StaysRemembered(h: seq<Entry>, i: nat, event: Event)
    requires i < |h| && PublishesFor(h, i, event.guid) && SameEvent(h[i].job, event)
    requires forall m | i < m < |h| :: !Disturbs(h, m, event)
    ensures var last := LastPublished(h, event.guid);
            last.Some? && Fingerprint(last.value) == Fingerprint(event)
    decreases |h|
  {
    hide Exec, Replay, Fingerprint;
    var last := |h| - 1;
    if i < last {
      PrefixSame(h, last, i, event);
      forall m | i < m < last ensures !Disturbs(h[..last], m, event) { PrefixSame(h, last, m, event); }
      if !PublishesFor(h, last, event.guid) {
        assert !Disturbs(h, last, event);
        StaysRemembered(h[..last], i, event);
      } else {
        assert !Disturbs(h, last, event);
      }
    }
  }

  /** Once the handling of an event with an id is published, handling it again, with any
      snapshot and however many jobs ran, failed or died and however often the file was damaged in
      between, succeeds without a locate call, as long as no garbled file is set aside and no
      other event with an id is published for the vdev. */
  lemma DuplicatesActOnce(h: seq<Entry>, i: nat, again: Job, fate: Fate)
    requires i < |h| && h[i].Attempt? && h[i].job.Handle? && PublishesFor(h, i, h[i].job.event.guid)
    requires forall m | i < m < |h| :: !Disturbs(h, m, h[i].job.event)
    requires SameEvent(again, h[i].job.event) && !Replay(h).file.Garbled?
    ensures var r := Exec(Base(Replay(h).file), again, fate, false);
            r.status == Done && r.calls == [] && r.ops == [] && r.ignored
  {
    hide Replay, Fingerprint, Refresh;
    FingerprintParts(h[i].job.event);
    FingerprintParts(again.event);
    StaysRemembered(h, i, h[i].job.event);
    IgnoredIff(h, again.event);
  }

  /** However many copies of an event are handled in one history: after one of them has
      published, no later one adds a call until something in between makes the store forget. */
  lemma AtMostOneActs(h: seq<Entry>, event: Event, i: nat, j: nat)
    requires i < j < |h| && PublishesFor(h, i, event.guid) && SameEvent(h[i].job, event)
    requires h[j].Attempt? && SameEvent(h[j].job, event)
    requires forall m | i < m < j :: !Disturbs(h, m, event)
    ensures Replay(h[..j + 1]).trace == Replay(h[..j]).trace
  {
    hide Exec, Replay, Fingerprint;
    assert h[..j + 1] == h[..j] + [h[j]];
    ReplayLast(h[..j], h[j]);
    if !Replay(h[..j]).file.Garbled? {
      PrefixSame(h, j, i, event);
      forall m | i < m < j ensures !Disturbs(h[..j], m, h[i].job.event) {
        PrefixSame(h, j, m, event);
      }
      DuplicatesActOnce(h[..j], i, h[j].job, h[j].fate);
    }
  }
}
