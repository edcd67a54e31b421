/** Joining disks to enclosure slots: backends in priority order, exact identity only. */
module Enclosure {
  import opened Types
  import opened Text

  datatype Slot = Slot(bay: Bay, serial: string, wwn: string, model: string, device: string)

  /** What listing a backend gave; a configured backend may also be absent. */
  datatype Backend =
    | Absent
    | Unavailable(name: string, code: ErrorCode)
    | Listing(name: string, slots: seq<Slot>)

  // ----- Identities -----

  function TrimNul(s: string): string {
    if s != "" && s[0] == '\0' then TrimNul(s[1..])
    else if s != "" && s[|s| - 1] == '\0' then TrimNul(s[..|s| - 1])
    else s
  }

  function UpperChar(c: char): char {
    if 'a' <= c <= 'z' then c - 'a' + 'A' else c
  }

  function ToUpper(s: string): string {
    seq(|s|, i requires 0 <= i < |s| => UpperChar(s[i]))
  }

  function NormalizeIdentity(value: string): string {
    ToUpper(TrimNul(TrimSpace(value)))
  }

  function NormalizeWWN(value: string): string {
    var v := NormalizeIdentity(value);
    if "0X" <= v then v[2..] else v
  }

  // ----- What normalising leaves of an identity -----

  /** An identity without the white space and the NULs around it. */
  function Core(value: string): string {
    TrimNul(TrimSpace(value))
  }

  predicate Padding(s: string) {
    forall i | 0 <= i < |s| :: IsSpace(s[i]) || s[i] == '\0'
  }

  /** No white space and no NUL at either end. */
  predicate Plain(value: string) {
    value != "" ==>
      && !IsSpace(value[0]) && !IsSpace(value[|value| - 1])
      && value[0] != '\0' && value[|value| - 1] != '\0'
  }

  lemma {:induction false} TrimNulParts(s: string) returns (p: string, q: string)
    ensures s == p + TrimNul(s) + q && Padding(p) && Padding(q)
    ensures TrimNul(s) != "" ==> TrimNul(s)[0] != '\0' && TrimNul(s)[|TrimNul(s)| - 1] != '\0'
    decreases |s|
  {
    if s != "" && s[0] == '\0' {
      p, q := TrimNulParts(s[1..]);
      p := [s[0]] + p;
    } else if s != "" && s[|s| - 1] == '\0' {
      p, q := TrimNulParts(s[..|s| - 1]);
      q := q + [s[|s| - 1]];
    } else {
      p, q := "", "";
    }
  }

  /** Only padding is taken off, and no NUL is left at either end. */
  lemma CoreParts(value: string) returns (p: string, q: string)
    ensures value == p + Core(value) + q && Padding(p) && Padding(q)
    ensures Core(value) != "" ==> Core(value)[0] != '\0' && Core(value)[|Core(value)| - 1] != '\0'
  {
    hide TrimSpace;
    var p1, q1 := TrimSpaceParts(value);
    var p2, q2 := TrimNulParts(TrimSpace(value));
    p, q := p1 + p2, q2 + q1;
    assert p1 + (p2 + Core(value) + q2) + q1 == p + Core(value) + q;
  }

  lemma CoreOfPlain(value: string)
    requires Plain(value)
    ensures Core(value) == value
  {
    if value != "" {
      TrimBlank("", value);
      assert "" + value == value;
    }
  }

  lemma UpperIsSameLetter(a: char, b: char)
    ensures UpperChar(a) == UpperChar(b) <==> SameLetter(a, b)
  {
  }

  lemma UpperIsSameText(a: string, b: string)
    ensures ToUpper(a) == ToUpper(b) <==> SameText(a, b)
  {
    hide UpperChar, SameLetter;
    forall i | 0 <= i < |a| && i < |b| ensures UpperChar(a[i]) == UpperChar(b[i]) <==> SameLetter(a[i], b[i]) {
      UpperIsSameLetter(a[i], b[i]);
    }
    if ToUpper(a) == ToUpper(b) {
      assert |ToUpper(a)| == |ToUpper(b)|;
      forall i | 0 <= i < |a| ensures SameLetter(a[i], b[i]) {
        assert ToUpper(a)[i] == UpperChar(a[i]) && ToUpper(b)[i] == UpperChar(b[i]);
      }
    }
  }

  /** Two identities normalise alike if and only if, without their padding, they differ at most in
      the case of letters; those without padding are compared as they are. */
  lemma IdentitiesAgreeIff(a: string, b: string)
    ensures NormalizeIdentity(a) == NormalizeIdentity(b) <==> SameText(Core(a), Core(b))
    ensures Plain(a) && Plain(b) ==> (NormalizeIdentity(a) == NormalizeIdentity(b) <==> SameText(a, b))
    ensures NormalizeIdentity(a) == "" <==> Core(a) == ""
  {
    hide ToUpper, TrimSpace, TrimNul, SameText;
    UpperIsSameText(Core(a), Core(b));
    UpperKeepsLength(Core(a));
    if Plain(a) { CoreOfPlain(a); }
    if Plain(b) { CoreOfPlain(b); }
  }

  lemma UpperKeepsLength(s: string)
    ensures |ToUpper(s)| == |s|
  {
  }

  /** A WWN without the 0x in front of it, if there is one. */
  function Bare(wwn: string): string {
    if |wwn| >= 2 && wwn[0] == '0' && (wwn[1] == 'x' || wwn[1] == 'X') then wwn[2..] else wwn
  }

  lemma BareUpper(s: string)
    ensures ToUpper(Bare(s)) == if "0X" <= ToUpper(s) then ToUpper(s)[2..] else ToUpper(s)
  {
    var u := ToUpper(s);
    if |s| >= 2 {
      assert u[0] == '0' <==> s[0] == '0';
      assert u[1] == 'X' <==> s[1] == 'x' || s[1] == 'X';
      assert u[..2] == [u[0], u[1]];
      assert "0X" <= u <==> u[0] == '0' && u[1] == 'X';
      assert ToUpper(s[2..]) == u[2..];
    }
  }

  /** Two WWNs normalise alike if and only if, without their padding and one 0x in front, they
      differ at most in the case of letters. */
  lemma WWNsAgreeIff(a: string, b: string)
    ensures NormalizeWWN(a) == NormalizeWWN(b) <==> SameText(Bare(Core(a)), Bare(Core(b)))
    ensures Plain(a) && Plain(b) ==> (NormalizeWWN(a) == NormalizeWWN(b) <==> SameText(Bare(a), Bare(b)))
    ensures NormalizeWWN(a) == "" <==> Bare(Core(a)) == ""
  {
    hide ToUpper, TrimSpace, TrimNul, SameText, Bare;
    BareUpper(Core(a));
    BareUpper(Core(b));
    UpperIsSameText(Bare(Core(a)), Bare(Core(b)));
    UpperKeepsLength(Bare(Core(a)));
    if Plain(a) { CoreOfPlain(a); }
    if Plain(b) { CoreOfPlain(b); }
  }

  // ----- Matching one disk against one list of slots -----

  /** What a slot must have in common with a disk. */
  datatype Test = Serial(serial: string) | WWN(wwn: string) | Both(serial: string, wwn: string)

  predicate Passes(t: Test, s: Slot) {
    match t
    case Serial(serial) => NormalizeIdentity(s.serial) == serial
    case WWN(wwn) => NormalizeWWN(s.wwn) == wwn
    case Both(serial, wwn) => NormalizeIdentity(s.serial) == serial && NormalizeWWN(s.wwn) == wwn
  }

  /** The slots that pass, in order. */
  function Filter(t: Test, slots: seq<Slot>): seq<Slot> {
    if slots == [] then []
    else
      var last := slots[|slots| - 1];
      Filter(t, slots[..|slots| - 1]) + (if Passes(t, last) then [last] else [])
  }

  /** Serial number first; the WWN narrows several serial matches unless it excludes them all,
      and stands in for a missing serial. */
  function MatchSlots(d: Disk, slots: seq<Slot>): seq<Slot> {
    var serial, wwn := NormalizeIdentity(d.serial), NormalizeWWN(d.wwn);
    if serial != "" then
      var matches := Filter(Serial(serial), slots);
      if |matches| > 1 && wwn != "" && Filter(WWN(wwn), matches) != [] then Filter(WWN(wwn), matches) else matches
    else if wwn != "" then Filter(WWN(wwn), slots)
    else []
  }

  /** Slot i passes and no other does. */
  predicate Only(t: Test, slots: seq<Slot>, i: nat) {
    i < |slots| && Passes(t, slots[i]) && forall j | 0 <= j < |slots| && Passes(t, slots[j]) :: j == i
  }

  /** The one slot a disk may be placed in, said without filtering. */
  predicate SoleMatch(d: Disk, slots: seq<Slot>, i: nat) {
    SoleSlot(d.serial, d.wwn, slots, i)
  }

  /** The one slot for a serial number and a WWN. */
  predicate SoleSlot(serialNumber: string, worldWideName: string, slots: seq<Slot>, i: nat) {
    var serial, wwn := NormalizeIdentity(serialNumber), NormalizeWWN(worldWideName);
    if serial != "" then Only(Serial(serial), slots, i) || (wwn != "" && Only(Both(serial, wwn), slots, i))
    else wwn != "" && Only(WWN(wwn), slots, i)
  }

  lemma {:induction false} FilterCounts(t: Test, slots: seq<Slot>, s: Slot)
    ensures multiset(Filter(t, slots))[s] == if Passes(t, s) then multiset(slots)[s] else 0
  {
    hide Passes;
    if slots != [] {
      var prefix, last := slots[..|slots| - 1], slots[|slots| - 1];
      FilterCounts(t, prefix, s);
      assert slots == prefix + [last];
    }
  }

  lemma {:induction false} FilterTwice(serial: string, wwn: string, slots: seq<Slot>)
    ensures Filter(WWN(wwn), Filter(Serial(serial), slots)) == Filter(Both(serial, wwn), slots)
  {
    hide NormalizeIdentity, NormalizeWWN;
    if slots != [] {
      var prefix, last := slots[..|slots| - 1], slots[|slots| - 1];
      FilterTwice(serial, wwn, prefix);
      if Passes(Serial(serial), last) {
        var inner := Filter(Serial(serial), prefix) + [last];
        assert inner[..|inner| - 1] == Filter(Serial(serial), prefix);
        assert Filter(Serial(serial), slots) == inner;
        assert Filter(WWN(wwn), inner) ==
               Filter(WWN(wwn), inner[..|inner| - 1]) + (if Passes(WWN(wwn), last) then [last] else []);
      } else {
        assert Filter(Serial(serial), slots) == Filter(Serial(serial), prefix);
      }
    }
  }

  /** A filter finds nothing, one slot or several, as the slots that pass are none, one or several. */
  lemma {:induction false} FilterFindsOnly(t: Test, slots: seq<Slot>)
    ensures Filter(t, slots) == [] <==> forall j | 0 <= j < |slots| :: !Passes(t, slots[j])
    ensures |Filter(t, slots)| == 1 <==> exists i: nat :: Only(t, slots, i)
    ensures forall i: nat | Only(t, slots, i) :: Filter(t, slots) == [slots[i]]
  {
    hide Passes;
    if slots != [] {
      var n := |slots| - 1;
      var prefix, last := slots[..n], slots[n];
      FilterFindsOnly(t, prefix);
      var inner := Filter(t, prefix);
      if Passes(t, last) {
        assert Filter(t, slots) == inner + [last];
        if inner == [] {
          assert Filter(t, slots) == [last];
          forall j | 0 <= j < n ensures !Passes(t, slots[j]) { assert slots[j] == prefix[j]; }
          assert Only(t, slots, n);
          assert forall i: nat | Only(t, slots, i) :: i == n;
        } else {
          var j :| 0 <= j < n && Passes(t, prefix[j]);
          assert Passes(t, slots[j]);
          forall i: nat ensures !Only(t, slots, i) {
            assert Only(t, slots, i) ==> n == i;
            assert Only(t, slots, i) ==> j == i;
          }
        }
      } else {
        assert Filter(t, slots) == inner;
        forall i: nat ensures Only(t, slots, i) <==> Only(t, prefix, i) {
          if Only(t, prefix, i) {
            forall j | 0 <= j < |slots| && Passes(t, slots[j]) ensures j == i {
              assert j < n;
              assert Passes(t, prefix[j]);
            }
          }
          if Only(t, slots, i) {
            forall j | 0 <= j < |prefix| && Passes(t, prefix[j]) ensures j == i { assert Passes(t, slots[j]); }
          }
        }
      }
    }
  }

  /** Matching finds exactly one slot when and only when there is a sole match, and then it is
      that one. */
  lemma MatchIsSole(d: Disk, slots: seq<Slot>)
    ensures |MatchSlots(d, slots)| == 1 <==> exists i: nat :: SoleMatch(d, slots, i)
    ensures forall i: nat | SoleMatch(d, slots, i) :: MatchSlots(d, slots) == [slots[i]]
  {
    var serial, wwn := NormalizeIdentity(d.serial), NormalizeWWN(d.wwn);
    hide NormalizeIdentity, NormalizeWWN, Filter, Only, Passes;
    FilterTwice(serial, wwn, slots);
    FilterFindsOnly(Serial(serial), slots);
    FilterFindsOnly(Both(serial, wwn), slots);
    FilterFindsOnly(WWN(wwn), slots);
    SerialBeforeBoth(serial, wwn, slots);
    assert forall i: nat :: SoleMatch(d, slots, i) <==>
        if serial != "" then Only(Serial(serial), slots, i) || (wwn != "" && Only(Both(serial, wwn), slots, i))
        else wwn != "" && Only(WWN(wwn), slots, i);
  }

  lemma {:induction false} SerialBeforeBoth(serial: string, wwn: string, slots: seq<Slot>)
    ensures |Filter(Both(serial, wwn), slots)| <= |Filter(Serial(serial), slots)|
    ensures |Filter(Serial(serial), slots)| == 1 && |Filter(Both(serial, wwn), slots)| == 1 ==>
              Filter(Both(serial, wwn), slots) == Filter(Serial(serial), slots)
    ensures |Filter(Serial(serial), slots)| == 0 ==> Filter(Serial(serial), slots) == []
  {
    hide NormalizeIdentity, NormalizeWWN;
    if slots != [] { SerialBeforeBoth(serial, wwn, slots[..|slots| - 1]); }
  }

  /** The order in which a backend lists its slots does not matter to a single match, nor to
      whether there is none or several. */
  lemma MatchIgnoresOrder(d: Disk, a: seq<Slot>, b: seq<Slot>)
    requires multiset(a) == multiset(b)
    ensures |MatchSlots(d, a)| == |MatchSlots(d, b)|
    ensures |MatchSlots(d, a)| == 1 ==> MatchSlots(d, a) == MatchSlots(d, b)
  {
    var serial, wwn := NormalizeIdentity(d.serial), NormalizeWWN(d.wwn);
    hide NormalizeIdentity, NormalizeWWN, Filter, Passes;
    FilterIgnoresOrder(Serial(serial), a, b);
    FilterIgnoresOrder(WWN(wwn), a, b);
    FilterIgnoresOrder(Both(serial, wwn), a, b);
    FilterTwice(serial, wwn, a);
    FilterTwice(serial, wwn, b);
  }

  lemma FilterIgnoresOrder(t: Test, a: seq<Slot>, b: seq<Slot>)
    requires multiset(a) == multiset(b)
    ensures |Filter(t, a)| == |Filter(t, b)|
    ensures |Filter(t, a)| == 1 ==> Filter(t, a) == Filter(t, b)
  {
    var fa, fb := Filter(t, a), Filter(t, b);
    forall s ensures multiset(fa)[s] == multiset(fb)[s] {
      FilterCounts(t, a, s);
      FilterCounts(t, b, s);
    }
    assert multiset(fa) == multiset(fb);
    assert |fa| == |multiset(fa)| && |fb| == |multiset(fb)|;
    if |fa| == 1 {
      assert fa == [fa[0]] && fb == [fb[0]];
      assert fa[0] in multiset(fa);
      assert fa[0] in multiset(fb);
    }
  }

  // ----- Mapping all disks -----

  /** What one backend does to one disk. */
  function Visit(d: Disk, b: Backend): Disk {
    if d.bay.Some? || !b.Listing? then d
    else
      var matches := MatchSlots(d, b.slots);
      if |matches| == 0 then d
      else if |matches| == 1 then d.(bay := Some(matches[0].bay))
      else d.(diagnostics := d.diagnostics + [Diagnostic(Ambiguous, b.name)])
  }

  function VisitAll(d: Disk, backends: seq<Backend>): Disk {
    if backends == [] then d else Visit(VisitAll(d, backends[..|backends| - 1]), backends[|backends| - 1])
  }

  function Failures(backends: seq<Backend>): seq<Diagnostic> {
    if backends == [] then []
    else
      var b := backends[|backends| - 1];
      Failures(backends[..|backends| - 1]) + (if b.Unavailable? then [Diagnostic(b.code, b.name)] else [])
  }

  ghost predicate Places(d: Disk, b: Backend) {
    b.Listing? && exists i: nat :: SoleMatch(d, b.slots, i)
  }

  predicate Several(t: Test, slots: seq<Slot>) {
    exists i, j | 0 <= i < j < |slots| :: Passes(t, slots[i]) && Passes(t, slots[j])
  }

  /** Several slots carry the serial number, and the WWN does not single one of them out; or, without
      a serial number, several carry the WWN. */
  ghost predicate IsAmbiguous(serialNumber: string, worldWideName: string, slots: seq<Slot>) {
    var serial, wwn := NormalizeIdentity(serialNumber), NormalizeWWN(worldWideName);
    if serial != "" then
      Several(Serial(serial), slots) && !(wwn != "" && exists i: nat :: Only(Both(serial, wwn), slots, i))
    else wwn != "" && Several(WWN(wwn), slots)
  }

  lemma SeveralFound(t: Test, slots: seq<Slot>)
    ensures |Filter(t, slots)| > 1 <==> Several(t, slots)
  {
    hide Passes, Filter;
    FilterFindsOnly(t, slots);
    if Filter(t, slots) != [] && |Filter(t, slots)| != 1 {
      var j :| 0 <= j < |slots| && Passes(t, slots[j]);
      assert !Only(t, slots, j);
      var k :| 0 <= k < |slots| && Passes(t, slots[k]) && k != j;
      assert if j < k then Passes(t, slots[j]) && Passes(t, slots[k]) else Passes(t, slots[k]) && Passes(t, slots[j]);
    }
  }

  /** Matching finds several slots if and only if the identity is ambiguous among them. */
  lemma MatchIsAmbiguous(d: Disk, slots: seq<Slot>)
    ensures |MatchSlots(d, slots)| > 1 <==> IsAmbiguous(d.serial, d.wwn, slots)
  {
    var serial, wwn := NormalizeIdentity(d.serial), NormalizeWWN(d.wwn);
    hide NormalizeIdentity, NormalizeWWN, Filter, Only, Passes, Several;
    FilterTwice(serial, wwn, slots);
    FilterFindsOnly(Both(serial, wwn), slots);
    SeveralFound(Serial(serial), slots);
    SeveralFound(WWN(wwn), slots);
    SerialBeforeBoth(serial, wwn, slots);
  }

  /** The ambiguity reports of the working backends among whose slots the identity is ambiguous, in
      order. */
  ghost function Ambiguities(d: Disk, backends: seq<Backend>): seq<Diagnostic> {
    if backends == [] then []
    else
      var b := backends[|backends| - 1];
      Ambiguities(d, backends[..|backends| - 1])
      + (if b.Listing? && IsAmbiguous(d.serial, d.wwn, b.slots) then [Diagnostic(Ambiguous, b.name)] else [])
  }

  /** The declarative join. A disk that comes with a bay is left alone. Otherwise it gets the
      bay of its sole match in the first working backend that has one, or none, and one
      diagnostic for every earlier backend in which it matched several slots; all else about
      the disk stays. */
  ghost predicate Placed(d: Disk, backends: seq<Backend>, r: Disk) {
    if d.bay.Some? then r == d
    else exists n | 0 <= n <= |backends| :: PlacedBy(d, backends, r, n)
  }

  /** The first n backends have no sole match, and the next one, if there is one, does. */
  ghost predicate PlacedBy(d: Disk, backends: seq<Backend>, r: Disk, n: nat)
    requires n <= |backends|
  {
    && (forall j | 0 <= j < n :: !Places(d, backends[j]))
    && r == d.(bay := r.bay, diagnostics := d.diagnostics + Ambiguities(d, backends[..n]))
    && (if n == |backends| then r.bay == None
        else backends[n].Listing? &&
             exists i: nat :: SoleMatch(d, backends[n].slots, i) && r.bay == Some(backends[n].slots[i].bay))
  }

  lemma SameIdentity(d: Disk, r: Disk, slots: seq<Slot>)
    requires r.serial == d.serial && r.wwn == d.wwn
    ensures MatchSlots(r, slots) == MatchSlots(d, slots)
  {
  }

  lemma {:induction false} VisitAllBefore(d: Disk, backends: seq<Backend>, n: nat)
    requires n <= |backends| && d.bay.None? && forall j | 0 <= j < n :: !Places(d, backends[j])
    ensures VisitAll(d, backends[..n]) == d.(diagnostics := d.diagnostics + Ambiguities(d, backends[..n]))
  {
    hide MatchSlots, SoleMatch, IsAmbiguous;
    if n > 0 {
      VisitAllBefore(d, backends, n - 1);
      var b := backends[n - 1];
      assert backends[..n][..n - 1] == backends[..n - 1];
      var before := VisitAll(d, backends[..n - 1]);
      if b.Listing? {
        MatchIsSole(d, b.slots);
        MatchIsAmbiguous(d, b.slots);
        SameIdentity(d, before, b.slots);
      }
    }
  }

  lemma {:induction false} VisitAllAfter(d: Disk, backends: seq<Backend>, n: nat)
    requires n <= |backends| && VisitAll(d, backends[..n]).bay.Some?
    ensures VisitAll(d, backends) == VisitAll(d, backends[..n])
    decreases |backends| - n
  {
    if n < |backends| {
      assert backends[..n + 1][..n] == backends[..n];
      VisitAllAfter(d, backends, n + 1);
    } else {
      assert backends[..n] == backends;
    }
  }

  lemma {:induction false} FirstPlace(d: Disk, backends: seq<Backend>, from: nat) returns (n: nat)
    requires from <= |backends|
    ensures from <= n <= |backends|
    ensures forall j | from <= j < n :: !Places(d, backends[j])
    ensures n < |backends| ==> Places(d, backends[n])
    decreases |backends| - from
  {
    hide Places;
    n := from;
    if n < |backends| && !Places(d, backends[n]) {
      n := FirstPlace(d, backends, from + 1);
    }
  }

  /** Visiting the backends one after the other is the declarative join. */
  lemma VisitAllPlaces(d: Disk, backends: seq<Backend>)
    ensures Placed(d, backends, VisitAll(d, backends))
  {
    hide PlacedBy, Places;
    if d.bay.Some? {
      assert backends[..0] == [];
      VisitAllAfter(d, backends, 0);
    } else {
      var n := FirstPlace(d, backends, 0);
      if n == |backends| { NoPlace(d, backends); } else { PlaceAt(d, backends, n); }
    }
  }

  lemma NoPlace(d: Disk, backends: seq<Backend>)
    requires d.bay.None? && forall j | 0 <= j < |backends| :: !Places(d, backends[j])
    ensures PlacedBy(d, backends, VisitAll(d, backends), |backends|)
  {
    VisitAllBefore(d, backends, |backends|);
    assert backends[..|backends|] == backends;
  }

  lemma PlaceAt(d: Disk, backends: seq<Backend>, n: nat)
    requires n < |backends| && d.bay.None? && Places(d, backends[n])
    requires forall j | 0 <= j < n :: !Places(d, backends[j])
    ensures PlacedBy(d, backends, VisitAll(d, backends), n)
  {
    hide MatchSlots, NormalizeIdentity, NormalizeWWN, Passes;
    VisitAllBefore(d, backends, n);
    var before := VisitAll(d, backends[..n]);
    var slots := backends[n].slots;
    MatchIsSole(d, slots);
    SameIdentity(d, before, slots);
    var i: nat :| SoleMatch(d, slots, i);
    assert MatchSlots(before, slots) == [slots[i]];
    assert backends[..n + 1][..n] == backends[..n];
    assert VisitAll(d, backends[..n + 1]) == Visit(before, backends[n]);
    VisitAllAfter(d, backends, n + 1);
  }

  /** The first working backend with a sole slot for an identity is the n-th, and the slot its i-th. */
  ghost predicate FirstSole(serial: string, wwn: string, backends: seq<Backend>, n: nat, i: nat) {
    && n < |backends| && backends[n].Listing? && i < |backends[n].slots| && SoleSlot(serial, wwn, backends[n].slots, i)
    && forall j | 0 <= j < n ::
         backends[j].Listing? ==> forall k: nat :: !SoleSlot(serial, wwn, backends[j].slots, k)
  }

  /** A disk without a bay gets the bay of the sole slot in the first working backend that has one. */
  lemma FirstSoleGivesBay(d: Disk, backends: seq<Backend>, n: nat, i: nat)
    requires d.bay.None? && FirstSole(d.serial, d.wwn, backends, n, i)
    ensures VisitAll(d, backends).bay == Some(backends[n].slots[i].bay)
  {
    hide MatchSlots, NormalizeIdentity, NormalizeWWN, Passes;
    assert SoleMatch(d, backends[n].slots, i);
    assert Places(d, backends[n]);
    PlaceAt(d, backends, n);
    MatchIsSole(d, backends[n].slots);
    var k: nat :| SoleMatch(d, backends[n].slots, k) && VisitAll(d, backends).bay == Some(backends[n].slots[k].bay);
    assert MatchSlots(d, backends[n].slots) == [backends[n].slots[i]] == [backends[n].slots[k]];
    assert [backends[n].slots[i]][0] == [backends[n].slots[k]][0];
  }

  lemma FailuresConcat(a: seq<Backend>, b: seq<Backend>)
    ensures Failures(a + b) == Failures(a) + Failures(b)
    decreases |b|
  {
    if b == [] {
      assert a + b == a;
    } else {
      var last := |b| - 1;
      assert (a + b)[..|a + b| - 1] == a + b[..last];
      FailuresConcat(a, b[..last]);
    }
  }

  /** Mapping reports one failure for each backend that could not be listed, with its name and its
      error, in the order of the backends. */
  lemma FailuresAre(backends: seq<Backend>, i: nat)
    requires i < |backends|
    ensures Failures(backends) ==
            Failures(backends[..i])
            + (if backends[i].Unavailable? then [Diagnostic(backends[i].code, backends[i].name)] else [])
            + Failures(backends[i + 1..])
    ensures Failures([]) == []
  {
    hide Failures;
    var before, b, after := backends[..i], backends[i], backends[i + 1..];
    FailuresOne(b);
    FailuresConcat(before, [b]);
    FailuresConcat(before + [b], after);
    assert before + [b] + after == backends;
  }

  lemma FailuresOne(b: Backend)
    ensures Failures([b]) == if b.Unavailable? then [Diagnostic(b.code, b.name)] else []
    ensures Failures([]) == []
  {
    assert [b][..0] == [];
  }

  /** The same backends with their slots in another order. */
  predicate Reordered(a: seq<Backend>, b: seq<Backend>) {
    |a| == |b| && forall i | 0 <= i < |a| ::
      a[i] == b[i]
      || (a[i].Listing? && b[i].Listing? && a[i].name == b[i].name && multiset(a[i].slots) == multiset(b[i].slots))
  }

  /** Permuting any backend's slots changes nothing. */
  lemma {:induction false} SlotOrderIrrelevant(d: Disk, a: seq<Backend>, b: seq<Backend>)
    requires Reordered(a, b)
    ensures VisitAll(d, a) == VisitAll(d, b)
    decreases |a|
  {
    hide MatchSlots;
    if a != [] {
      var n := |a| - 1;
      SlotOrderIrrelevant(d, a[..n], b[..n]);
      if a[n] != b[n] {
        MatchIgnoresOrder(VisitAll(d, a[..n]), a[n].slots, b[n].slots);
      }
    }
  }

  /** The join as it runs: it copies its input and fills in bays in place. Because each result
      depends on its own disk alone, permuting the disks permutes the results. */
  method Map(input: seq<Disk>, backends: seq<Backend>) returns (disks: array<Disk>, diagnostics: seq<Diagnostic>)
    ensures fresh(disks) && disks.Length == |input|
    ensures forall i | 0 <= i < |input| ::
              disks[i] == VisitAll(input[i], backends) && Placed(input[i], backends, disks[i])
    ensures diagnostics == Failures(backends)
  {
    hide Visit, Placed;
    disks := new Disk[|input|](i requires 0 <= i < |input| => input[i]);
    diagnostics := [];
    for b := 0 to |backends|
      invariant forall i | 0 <= i < |input| :: disks[i] == VisitAll(input[i], backends[..b])
      invariant diagnostics == Failures(backends[..b])
    {
      var backend := backends[b];
      assert backends[..b + 1][..b] == backends[..b];
      match backend {
        case Absent =>
          IdleVisits(input, backends, b);
        case Unavailable(name, code) =>
          IdleVisits(input, backends, b);
          diagnostics := diagnostics + [Diagnostic(code, name)];
        case Listing(name, slots) =>
          VisitDisks(disks, backend);
      }
    }
    assert backends[..|backends|] == backends;
    forall i | 0 <= i < |input| ensures Placed(input[i], backends, disks[i]) {
      VisitAllPlaces(input[i], backends);
    }
  }

  lemma IdleVisits(input: seq<Disk>, backends: seq<Backend>, b: nat)
    requires b < |backends| && !backends[b].Listing?
    ensures forall i | 0 <= i < |input| :: VisitAll(input[i], backends[..b + 1]) == VisitAll(input[i], backends[..b])
  {
    assert backends[..b + 1][..b] == backends[..b];
  }

  /** The inner loop: every disk without a bay is offered the slots of one backend. */
  method VisitDisks(disks: array<Disk>, backend: Backend)
    requires backend.Listing?
    modifies disks
    ensures forall i | 0 <= i < disks.Length :: disks[i] == Visit(old(disks[i]), backend)
  {
    hide Visit;
    for i := 0 to disks.Length
      invariant forall k | 0 <= k < i :: disks[k] == Visit(old(disks[k]), backend)
      invariant forall k | i <= k < disks.Length :: disks[k] == old(disks[k])
    {
      disks[i] := VisitDisk(disks[i], backend);
    }
  }

  method VisitDisk(d: Disk, backend: Backend) returns (r: Disk)
    requires backend.Listing?
    ensures r == Visit(d, backend)
  {
    r := d;
    if d.bay.Some? { return; }
    var matches := FindSlots(d, backend.slots);
    if |matches| == 1 {
      r := r.(bay := Some(matches[0].bay));
    } else if |matches| > 1 {
      r := r.(diagnostics := r.diagnostics + [Diagnostic(Ambiguous, backend.name)]);
    }
  }

  method FindSlots(d: Disk, slots: seq<Slot>) returns (matches: seq<Slot>)
    ensures matches == MatchSlots(d, slots)
  {
    var serial, wwn := NormalizeIdentity(d.serial), NormalizeWWN(d.wwn);
    if serial != "" {
      matches := FilterSlots(Serial(serial), slots);
      if |matches| > 1 && wwn != "" {
        var filtered := FilterSlots(WWN(wwn), matches);
        if |filtered| > 0 { matches := filtered; }
      }
      return;
    }
    if wwn != "" {
      matches := FilterSlots(WWN(wwn), slots);
      return;
    }
    matches := [];
  }

  method FilterSlots(t: Test, slots: seq<Slot>) returns (matches: seq<Slot>)
    ensures matches == Filter(t, slots)
  {
    matches := [];
    for i := 0 to |slots|
      invariant matches == Filter(t, slots[..i])
    {
      assert slots[..i + 1][..i] == slots[..i];
      if Passes(t, slots[i]) { matches := matches + [slots[i]]; }
    }
    assert slots[..|slots|] == slots;
  }

  /** One physical identity: the same text but for padding and case, and not an empty one. */
  predicate SameSerial(a: string, b: string) {
    Core(a) != "" && SameText(Core(a), Core(b))
  }

  predicate SameWWN(a: string, b: string) {
    Bare(Core(a)) != "" && SameText(Bare(Core(a)), Bare(Core(b)))
  }

  /** Fail closed: a disk gains a bay only from a slot that carries the disk's own serial
      number or, when the disk has none, its WWN. */
  lemma NoIdentityNoBay(d: Disk, backends: seq<Backend>)
    requires d.bay.None? && VisitAll(d, backends).bay.Some?
    ensures exists b, s :: b in backends && b.Listing? && s in b.slots && VisitAll(d, backends).bay == Some(s.bay)
              && (if Core(d.serial) != "" then SameSerial(d.serial, s.serial) else SameWWN(d.wwn, s.wwn))
  {
    hide NormalizeIdentity, NormalizeWWN, MatchSlots, Core, Bare, SameText;
    VisitAllPlaces(d, backends);
    var r := VisitAll(d, backends);
    var n :| 0 <= n <= |backends| && PlacedBy(d, backends, r, n);
    var i: nat :| SoleMatch(d, backends[n].slots, i) && r.bay == Some(backends[n].slots[i].bay);
    var s := backends[n].slots[i];
    assert backends[n] in backends && s in backends[n].slots;
    IdentitiesAgreeIff(d.serial, s.serial);
    WWNsAgreeIff(d.wwn, s.wwn);
  }
}
