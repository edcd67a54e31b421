/** Sequential histories: the only things that can happen to the state file and the LEDs,
    one after the other, in the order in which the lock was held. Module Protocol shows
    that every concurrent run is such a history; here histories are arbitrary. */
module History {
  import opened Types
  import opened EngineSpec
  import opened Ledger

  datatype File = Missing | Garbled(content: string) | Valid(data: Data)

  /** What outlives every process: the state file, the preserved corrupt files and the
      locate calls the hardware has seen. */
  datatype Site = Site(file: File, backups: seq<string>, trace: seq<Call>)

  const EMPTY_SITE := Site(Missing, [], [])

  datatype Entry =
    | Damage(content: string)                        // something outside garbles the file
    | Quarantine                                     // a garbled file is moved aside
    | Attempt(job: Job, fate: Fate, published: bool) // a callback ran; published if its state was renamed into place

  /** The state a transaction starts from when the file can be read. */
  function Base(f: File): Data {
    if f.Valid? then f.data else NEW_DATA
  }

  ghost function Advance(s: Site, e: Entry): Site {
    match e
    case Damage(content) => s.(file := Garbled(content))
    case Quarantine =>
      if s.file.Garbled? then s.(file := Missing, backups := s.backups + [s.file.content]) else s
    case Attempt(job, fate, published) =>
      if s.file.Garbled? then s
      else
        var r := Exec(Base(s.file), job, fate, false);
        s.(trace := s.trace + r.calls,
           file := if published && r.status == Done then Valid(r.data) else s.file)
  }

  /** Entries applied in order. */
  ghost function AdvanceAll(s: Site, h: seq<Entry>): Site {
    if h == [] then s else Advance(AdvanceAll(s, h[..|h| - 1]), h[|h| - 1])
  }

  ghost function Replay(h: seq<Entry>): Site {
    AdvanceAll(EMPTY_SITE, h)
  }

  lemma AdvanceLast(s: Site, h: seq<Entry>, e: Entry)
    ensures AdvanceAll(s, h + [e]) == Advance(AdvanceAll(s, h), e)
  {
  }

  lemma ReplayLast(h: seq<Entry>, e: Entry)
    ensures Replay(h + [e]) == Advance(Replay(h), e)
  {
  }

  lemma {:induction false} AdvanceConcat(s: Site, a: seq<Entry>, b: seq<Entry>)
    ensures AdvanceAll(s, a + b) == AdvanceAll(AdvanceAll(s, a), b)
    decreases |b|
  {
    if b == [] {
      assert a + b == a;
    } else {
      assert (a + b)[..|a + b| - 1] == a + b[..|b| - 1];
      AdvanceConcat(s, a, b[..|b| - 1]);
    }
  }

  /** Every state that is ever persisted records each LED under the key of its own bay. */
  lemma {:induction false} ReplayWellKeyed(h: seq<Entry>)
    ensures WellKeyed(Base(Replay(h).file))
  {
    if h != [] {
      var before := Replay(h[..|h| - 1]);
      ReplayWellKeyed(h[..|h| - 1]);
      var e := h[|h| - 1];
      if e.Attempt? && !before.file.Garbled? {
        ExecAccounts(Base(before.file), e.job, e.fate, false);
      }
    }
  }
}
