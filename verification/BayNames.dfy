/** Bay names: read from StorCLI drive keys, printed into locate targets, and used as
    ownership keys. */
module BayNames {
  import opened Types
  import opened Text
  import opened Status

  // ----- Complete bays -----

  /** A complete bay of a backend without a colon in its name. */
  predicate Complete(b: Bay) {
    b.controller != "" && b.enclosure != "" && b.slot != "" && Free(b.backend, ':')
  }

  /** One whose controller and enclosure, moreover, contain no slash. */
  predicate PlainBay(b: Bay) {
    Complete(b) && Free(b.controller, '/') && Free(b.enclosure, '/')
  }

  predicate SameSlot(a: Bay, b: Bay) {
    a.backend == b.backend && a.controller == b.controller && a.enclosure == b.enclosure && a.slot == b.slot
  }

  function Path3(x: string, y: string, z: string): string {
    x + (['/'] + (y + (['/'] + z)))
  }

  lemma Path3Unique(x: string, y: string, z: string, x': string, y': string, z': string)
    requires Free(x, '/') && Free(y, '/') && Free(x', '/') && Free(y', '/')
    requires Path3(x, y, z) == Path3(x', y', z')
    ensures x == x' && y == y' && z == z'
  {
    SplitOnce(x, y + (['/'] + z), x', y' + (['/'] + z'), '/');
    SplitOnce(y, z, y', z', '/');
  }

  lemma IDIsPath3(b: Bay)
    requires b.controller != "" && b.enclosure != "" && b.slot != ""
    ensures b.ID() == Path3(b.controller, b.enclosure, b.slot)
  {
  }

  /** A key is the backend and the three parts, and the backend can be read off it. */
  lemma KeyParts(a: Bay, b: Bay)
    requires Complete(a) && Complete(b)
    ensures a.Key() == b.Key() <==>
            a.backend == b.backend
            && Path3(a.controller, a.enclosure, a.slot) == Path3(b.controller, b.enclosure, b.slot)
  {
    IDIsPath3(a);
    IDIsPath3(b);
    assert a.Key() == a.backend + ([':'] + a.ID());
    assert b.Key() == b.backend + ([':'] + b.ID());
    if a.Key() == b.Key() {
      SplitOnce(a.backend, a.ID(), b.backend, b.ID(), ':');
    }
  }

  /** Equal ownership keys mean the same physical slot, and only then, whatever the slot is
      called. */
  lemma KeyNamesOneSlot(a: Bay, b: Bay)
    requires PlainBay(a) && PlainBay(b)
    ensures a.Key() == b.Key() <==> SameSlot(a, b)
  {
    hide Bay.Key;
    KeyParts(a, b);
    if a.Key() == b.Key() {
      Path3Unique(a.controller, a.enclosure, a.slot, b.controller, b.enclosure, b.slot);
    }
  }

  // ----- When two slots share a key -----

  /** A slash where another reading of the same text could put a boundary: inside the
      controller, inside an enclosure that is more than the slash, or inside the slot. */
  predicate Ambiguous(b: Bay)
    requires Complete(b)
  {
    || '/' in b.controller[1..]
    || ('/' in b.enclosure && b.enclosure != "/")
    || '/' in b.slot[..|b.slot| - 1]
  }

  /** A complete bay shares its key with another slot if and only if it is ambiguous. */
  lemma CollidesIff(b: Bay)
    requires Complete(b)
    ensures (exists other: Bay :: Complete(other) && other.Key() == b.Key() && !SameSlot(other, b)) <==> Ambiguous(b)
  {
    hide Bay.Key, Path3, Ambiguous;
    if Ambiguous(b) {
      var x, y, z := OtherReading(b);
      var other := b.(controller := x, enclosure := y, slot := z);
      KeyParts(other, b);
      assert Complete(other) && other.Key() == b.Key() && !SameSlot(other, b);
    }
    forall other: Bay | !Ambiguous(b) && Complete(other) && other.Key() == b.Key() ensures SameSlot(other, b) {
      KeyParts(other, b);
      OnlyReading(b, other.controller, other.enclosure, other.slot);
    }
  }

  lemma OtherReading(b: Bay) returns (x: string, y: string, z: string)
    requires Complete(b) && Ambiguous(b)
    ensures x != "" && y != "" && z != "" && (x != b.controller || y != b.enclosure || z != b.slot)
    ensures Path3(x, y, z) == Path3(b.controller, b.enclosure, b.slot)
  {
    hide Path3;
    var c, e, s := b.controller, b.enclosure, b.slot;
    if '/' in c[1..] {
      var i :| 0 <= i < |c[1..]| && c[1..][i] == '/';
      var v, w := CutAt(c, i + 1);
      x, y, z := v, w + (['/'] + e), s;
      MoveLeft(v, w, e, s);
    } else if '/' in e && e != "/" {
      var i :| 0 <= i < |e| && e[i] == '/';
      var v, w := CutAt(e, i);
      if i > 0 {
        x, y, z := c, v, w + (['/'] + s);
        MoveRight(c, v, w, s);
      } else {
        x, y, z := c + (['/'] + ""), w, s;
        assert "" + (['/'] + w) == e;
        MoveLeft(c, "", w, s);
      }
    } else {
      var i :| 0 <= i < |s[..|s| - 1]| && s[..|s| - 1][i] == '/';
      var v, w := CutAt(s, i);
      x, y, z := c, e + (['/'] + v), w;
      MoveRight(c, e, v, w);
    }
  }

  lemma CutAt(s: string, i: nat) returns (v: string, w: string)
    requires i < |s| && s[i] == '/'
    ensures s == v + (['/'] + w) && |v| == i && |w| == |s| - i - 1
  {
    v, w := s[..i], s[i + 1..];
  }

  /** Four parts read as three, once joining the first two and once the middle two. */
  lemma MoveLeft(w: string, x: string, y: string, z: string)
    ensures Path3(w + (['/'] + x), y, z) == Path3(w, x + (['/'] + y), z)
  {
  }

  lemma MoveRight(w: string, x: string, y: string, z: string)
    ensures Path3(w, x + (['/'] + y), z) == Path3(w, x, y + (['/'] + z))
  {
  }

  /** The parts of a text by position. */
  lemma Path3At(x: string, y: string, z: string)
    ensures var t := Path3(x, y, z);
            && |t| == |x| + |y| + |z| + 2
            && t[..|x|] == x && t[|x|] == '/'
            && t[|x| + 1..|x| + 1 + |y|] == y && t[|x| + 1 + |y|] == '/'
            && t[|x| + |y| + 2..] == z
  {
  }

  lemma OnlyReading(b: Bay, x: string, y: string, z: string)
    requires Complete(b) && !Ambiguous(b) && x != "" && y != "" && z != ""
    requires Path3(x, y, z) == Path3(b.controller, b.enclosure, b.slot)
    ensures x == b.controller && y == b.enclosure && z == b.slot
  {
    hide Path3;
    var c, e, s := b.controller, b.enclosure, b.slot;
    var t := Path3(c, e, s);
    Path3At(c, e, s);
    Path3At(x, y, z);
    assert |x| == |c| && |x| + 1 + |y| == |c| + 1 + |e|;
  }

  /** A slot file that reads "1/2" makes an ambiguous bay; the bay it shares its key with lies in
      an enclosure whose name no directory can have. */
  lemma KeysCanCollide()
    ensures var a, b := Bay("ses", "ses", "0:0:8:0", "1/2", "", ""), Bay("ses", "ses", "0:0:8:0/1", "2", "", "");
            a.Key() == b.Key() && !SameSlot(a, b) && a.ID() != "" && Listed(a) && !Listed(b)
  {
    var a, b := Bay("ses", "ses", "0:0:8:0", "1/2", "", ""), Bay("ses", "ses", "0:0:8:0/1", "2", "", "");
    assert a.ID() == "ses/0:0:8:0/1/2" == b.ID();
    assert a.Key() == b.Key();
    assert Free(a.enclosure, '/');
    assert b.enclosure[7] == '/';
  }

  /** The bays that some backend can list: a numbered StorCLI slot, any slot of a SES enclosure
      named by the last element of a path, and a block device by its last path element. */
  predicate Listed(b: Bay) {
    || (b.backend == "storcli" && Numbered(b))
    || (b.backend == "ses" && b.controller == "ses" && LastElement(b.enclosure))
    || (b.backend == "ledctl" && b.controller == "linux" && b.enclosure == "block")
  }

  /** What the last element of a path can be; BaseIsLastElement shows that it is. */
  predicate LastElement(s: string) {
    s == "/" || (s != "" && Free(s, '/'))
  }

  predicate Numbered(b: Bay) {
    && |b.controller| > 1 && b.controller[0] == 'c' && Digits(b.controller[1..])
    && |b.enclosure| > 1 && b.enclosure[0] == 'e' && Digits(b.enclosure[1..])
    && |b.slot| > 1 && b.slot[0] == 's' && Digits(b.slot[1..])
  }

  lemma BaseIsLastElement(path: string)
    ensures LastElement(BaseName(path))
  {
    hide AfterSlash, DropSlashes;
    if path != "" {
      DropSlashesEnds(path);
      AfterSlashFree(DropSlashes(path));
    }
  }

  /** The base of a path is the name at its end, whatever directory it is in. */
  lemma BaseOfPath(directory: string, name: string)
    requires name != "" && Free(name, '/')
    ensures BaseName(name) == name && BaseName(directory + "/" + name) == name
  {
    hide AfterSlash, DropSlashes;
    var p := directory + "/";
    assert (p + name)[|p + name| - 1] == name[|name| - 1];
    KeepsName(name);
    KeepsName(p + name);
    NameAfterSlash(p, name);
    NameAfterSlash("", name);
    assert "" + name == name;
  }

  lemma KeepsName(p: string)
    requires p != "" && p[|p| - 1] != '/'
    ensures DropSlashes(p) == p
  {
  }

  lemma {:induction false} NameAfterSlash(p: string, name: string)
    requires Free(name, '/') && (p == "" || p[|p| - 1] == '/')
    ensures AfterSlash(p + name) == name
    decreases |name|
  {
    if name == "" {
      assert p + name == p;
    } else {
      var last := |name| - 1;
      assert (p + name)[..|p + name| - 1] == p + name[..last];
      assert name == name[..last] + [name[last]];
      NameAfterSlash(p, name[..last]);
    }
  }

  lemma {:induction false} DropSlashesEnds(p: string)
    ensures DropSlashes(p) != "" ==> DropSlashes(p)[|DropSlashes(p)| - 1] != '/'
  {
    if p != "" && p[|p| - 1] == '/' { DropSlashesEnds(p[..|p| - 1]); }
  }

  lemma {:induction false} AfterSlashFree(p: string)
    ensures Free(AfterSlash(p), '/')
    ensures p != "" && p[|p| - 1] != '/' ==> AfterSlash(p) != ""
  {
    if p != "" && p[|p| - 1] != '/' { AfterSlashFree(p[..|p| - 1]); }
  }

  /** No two bays that backends can list share a key unless they are the same slot. */
  lemma ListedNeverCollide(a: Bay, b: Bay)
    requires Listed(a) && Listed(b) && a.ID() != "" && b.ID() != ""
    ensures a.Key() == b.Key() <==> SameSlot(a, b)
  {
    hide Bay.Key, Path3, Digits;
    ListedIsComplete(a);
    ListedIsComplete(b);
    KeyParts(a, b);
    if a.Key() == b.Key() {
      if a.enclosure == "/" || b.enclosure == "/" {
        RootEnclosure(a, b);
      } else {
        KeyNamesOneSlot(a, b);
      }
    }
  }

  lemma ListedIsComplete(b: Bay)
    requires Listed(b) && b.ID() != ""
    ensures Complete(b) && Free(b.controller, '/') && LastElement(b.enclosure)
    ensures b.enclosure == "/" ==> b.controller == "ses" && b.backend == "ses"
  {
  }

  lemma RootEnclosure(a: Bay, b: Bay)
    requires Complete(a) && Complete(b) && Free(a.controller, '/') && Free(b.controller, '/')
    requires LastElement(a.enclosure) && LastElement(b.enclosure) && (a.enclosure == "/" || b.enclosure == "/")
    requires Path3(a.controller, a.enclosure, a.slot) == Path3(b.controller, b.enclosure, b.slot)
    ensures a.controller == b.controller && a.enclosure == b.enclosure && a.slot == b.slot
  {
    var x, y := a.enclosure + (['/'] + a.slot), b.enclosure + (['/'] + b.slot);
    SplitOnce(a.controller, x, b.controller, y, '/');
    assert x[0] == a.enclosure[0] && y[0] == b.enclosure[0];
    assert a.enclosure == "/" && b.enclosure == "/";
    assert x[2..] == a.slot && y[2..] == b.slot;
  }

  // ----- StorCLI drive keys -----

  const KEY_START := "Drive /c"
  const KEY_END := " - Detailed Information"

  function DigitCount(s: string): (n: nat)
    ensures n <= |s|
  {
    if s == "" || !Digit(s[0]) then 0 else 1 + DigitCount(s[1..])
  }

  /** One or more digits at the start of s, followed by the given text, and what comes after. */
  function TakeNumber(s: string, then_: string): Option<(string, string)> {
    var n := DigitCount(s);
    if n > 0 && then_ <= s[n..] then Some((s[..n], s[n + |then_|..])) else None
  }

  /** The three numbers of "Drive /cA/eB/sC - Detailed Information". */
  function ParseKey(key: string): Option<(string, string, string)> {
    if !(KEY_START <= key) then None
    else
      match TakeNumber(key[|KEY_START|..], "/e")
      case None => None
      case Some((a, rest)) =>
        match TakeNumber(rest, "/s")
        case None => None
        case Some((b, rest')) =>
          match TakeNumber(rest', KEY_END)
          case None => None
          case Some((c, tail)) => if tail == "" then Some((a, b, c)) else None
  }

  /** The locate target that a key describes: the text between "Drive " and " - ". */
  function TargetText(a: string, b: string, c: string): string {
    "/c" + (a + ("/e" + (b + ("/s" + c))))
  }

  function KeyText(a: string, b: string, c: string): string {
    KEY_START + (a + ("/e" + (b + ("/s" + (c + KEY_END)))))
  }

  function BayOf(a: string, b: string, c: string): Bay {
    Bay("storcli", "c" + a, "e" + b, "s" + c, "locate", "unknown")
  }

  function KeyOf(numbers: (string, string, string)): string {
    BayOf(numbers.0, numbers.1, numbers.2).Key()
  }

  lemma {:induction false} DigitCountOf(d: string, s: string)
    requires (forall i | 0 <= i < |d| :: Digit(d[i])) && (s == "" || !Digit(s[0]))
    ensures DigitCount(d + s) == |d|
  {
    if d == "" {
      assert d + s == s;
    } else {
      assert (d + s)[1..] == d[1..] + s;
      DigitCountOf(d[1..], s);
    }
  }

  lemma {:induction false} DigitCountDigits(s: string)
    ensures forall i | 0 <= i < DigitCount(s) :: Digit(s[i])
  {
    if s != "" && Digit(s[0]) { DigitCountDigits(s[1..]); }
  }

  lemma NumberTaken(d: string, then_: string, rest: string)
    requires Digits(d) && then_ != "" && !Digit(then_[0])
    ensures TakeNumber(d + (then_ + rest), then_) == Some((d, rest))
  {
    var s := d + (then_ + rest);
    DigitCountOf(d, then_ + rest);
    assert s[..|d|] == d && s[|d|..] == then_ + rest && s[|d| + |then_|..] == rest;
  }

  lemma NumberTakenBack(s: string, then_: string)
    requires TakeNumber(s, then_).Some?
    ensures var (d, rest) := TakeNumber(s, then_).value; Digits(d) && s == d + (then_ + rest)
  {
    var n := DigitCount(s);
    DigitCountDigits(s);
    assert s == s[..n] + s[n..];
    assert s[n..] == then_ + s[n + |then_|..];
  }

  /** Reading a key succeeds exactly on the printed form of three digit strings, and returns
      them unchanged, leading zeros included. */
  lemma KeyRoundTrip(key: string, a: string, b: string, c: string)
    ensures ParseKey(key) == Some((a, b, c)) <==> Digits(a) && Digits(b) && Digits(c) && key == KeyText(a, b, c)
  {
    hide ParseKey, KeyText;
    if Digits(a) && Digits(b) && Digits(c) { KeyIsRead(a, b, c); }
    if ParseKey(key) == Some((a, b, c)) { KeyWasPrinted(key); }
  }

  lemma KeyIsRead(a: string, b: string, c: string)
    requires Digits(a) && Digits(b) && Digits(c)
    ensures ParseKey(KeyText(a, b, c)) == Some((a, b, c))
  {
    hide TakeNumber;
    var s3 := c + (KEY_END + "");
    assert KEY_END + "" == KEY_END;
    NumberTaken(c, KEY_END, "");
    NumberTaken(b, "/s", s3);
    NumberTaken(a, "/e", b + ("/s" + s3));
    assert KeyText(a, b, c)[|KEY_START|..] == a + ("/e" + (b + ("/s" + s3)));
  }

  lemma KeyWasPrinted(key: string)
    requires ParseKey(key).Some?
    ensures var (a, b, c) := ParseKey(key).value;
            Digits(a) && Digits(b) && Digits(c) && key == KeyText(a, b, c)
  {
    hide TakeNumber;
    var s1 := key[|KEY_START|..];
    NumberTakenBack(s1, "/e");
    var s2 := TakeNumber(s1, "/e").value.1;
    NumberTakenBack(s2, "/s");
    var s3 := TakeNumber(s2, "/s").value.1;
    NumberTakenBack(s3, KEY_END);
    assert KEY_END + "" == KEY_END;
    assert key == KEY_START + s1;
  }

  // ----- Locate commands -----

  datatype Command = Command(name: string, args: seq<string>)

  /** The allowlist: /c, digits, /e, digits, /s, digits and nothing else. */
  predicate IsTarget(t: string) {
    "/c" <= t &&
    match TakeNumber(t[2..], "/e")
    case None => false
    case Some((a, rest)) =>
      match TakeNumber(rest, "/s")
      case None => false
      case Some((b, rest')) => Digits(rest')
  }

  function TargetOf(b: Bay): string {
    "/" + b.controller + "/" + b.enclosure + "/" + b.slot
  }

  function CommandForLocate(executable: string, bay: Bay, action: string): Result<Command> {
    var target := TargetOf(bay);
    if executable == "" || !IsTarget(target) then Err(Malformed)
    else if action == "on" then Ok(Command(executable, [target, "start", "locate"]))
    else if action == "off" then Ok(Command(executable, [target, "stop", "locate"]))
    else Err(Unsupported)
  }

  lemma TargetTextIsTarget(a: string, b: string, c: string)
    requires Digits(a) && Digits(b) && Digits(c)
    ensures IsTarget(TargetText(a, b, c))
  {
    NumberTaken(b, "/s", c);
    NumberTaken(a, "/e", b + ("/s" + c));
    assert TargetText(a, b, c)[2..] == a + ("/e" + (b + ("/s" + c)));
  }

  lemma TargetParts(t: string) returns (a: string, b: string, c: string)
    requires IsTarget(t)
    ensures Digits(a) && Digits(b) && Digits(c) && t == TargetText(a, b, c)
  {
    var s1 := t[2..];
    NumberTakenBack(s1, "/e");
    a := TakeNumber(s1, "/e").value.0;
    var s2 := TakeNumber(s1, "/e").value.1;
    NumberTakenBack(s2, "/s");
    b, c := TakeNumber(s2, "/s").value.0, TakeNumber(s2, "/s").value.1;
    assert t == "/c" + s1;
  }

  lemma TargetIsPath3(a: string, b: string, c: string)
    ensures TargetText(a, b, c) == ['/'] + Path3("c" + a, "e" + b, "s" + c)
  {
  }

  lemma TargetOfIsPath3(bay: Bay)
    ensures TargetOf(bay) == ['/'] + Path3(bay.controller, bay.enclosure, bay.slot)
  {
  }

  lemma CountPath3(x: string, y: string, z: string)
    ensures Count(Path3(x, y, z), '/') == Count(x, '/') + Count(y, '/') + Count(z, '/') + 2
  {
    CountConcat(x, ['/'] + (y + (['/'] + z)), '/');
    CountConcat(['/'], y + (['/'] + z), '/');
    CountConcat(y, ['/'] + z, '/');
    CountConcat(['/'], z, '/');
    assert Count(['/'], '/') == 1 by { assert ['/'][1..] == ""; }
  }

  lemma NumberedFree(letter: char, d: string)
    requires Digits(d) && letter != '/' && letter != ':'
    ensures Free([letter] + d, '/') && Free([letter] + d, ':')
  {
  }

  /** The only LED command the StorCLI backend can build is for a bay made of cN, eN and sN,
      whatever text the bay's fields hold; for such a bay it always builds it. */
  lemma OnlyNumberedBays(executable: string, bay: Bay, action: string)
    ensures CommandForLocate(executable, bay, action).Ok? <==>
            executable != "" && (action == "on" || action == "off") &&
            exists a, b, c :: Digits(a) && Digits(b) && Digits(c)
                              && bay.controller == "c" + a && bay.enclosure == "e" + b && bay.slot == "s" + c
  {
    TargetOfIsPath3(bay);
    if IsTarget(TargetOf(bay)) {
      var a, b, c := TargetParts(TargetOf(bay));
      TargetIsPath3(a, b, c);
      var p, q := Path3(bay.controller, bay.enclosure, bay.slot), Path3("c" + a, "e" + b, "s" + c);
      assert (['/'] + p)[1..] == p && (['/'] + q)[1..] == q;
      NumberedFree('c', a);
      NumberedFree('e', b);
      NumberedFree('s', c);
      CountPath3(bay.controller, bay.enclosure, bay.slot);
      CountPath3("c" + a, "e" + b, "s" + c);
      CountZero("c" + a, '/');
      CountZero("e" + b, '/');
      CountZero("s" + c, '/');
      CountZero(bay.controller, '/');
      CountZero(bay.enclosure, '/');
      Path3Unique(bay.controller, bay.enclosure, bay.slot, "c" + a, "e" + b, "s" + c);
    }
    if exists a, b, c :: Digits(a) && Digits(b) && Digits(c)
                         && bay.controller == "c" + a && bay.enclosure == "e" + b && bay.slot == "s" + c {
      var a, b, c :| Digits(a) && Digits(b) && Digits(c)
                     && bay.controller == "c" + a && bay.enclosure == "e" + b && bay.slot == "s" + c;
      TargetIsPath3(a, b, c);
      TargetTextIsTarget(a, b, c);
    }
  }

  /** A refused locate command is unsupported if and only if only its action is wrong, and malformed
      in every other case. */
  lemma LocateErrors(executable: string, bay: Bay, action: string)
    requires CommandForLocate(executable, bay, action).Err?
    ensures var code := CommandForLocate(executable, bay, action).code;
            && (code == Unsupported || code == Malformed)
            && (code == Unsupported <==>
                  CommandForLocate(executable, bay, "on").Ok? && action != "on" && action != "off")
  {
    hide IsTarget, TargetOf;
  }

  /** Every bay read from a drive key is accepted, its target is letter for letter the text in
      the key, and its ownership key names no other bay read from any drive key. */
  lemma KeyToTarget(key: string, executable: string, key': string)
    requires ParseKey(key).Some? && executable != ""
    ensures var (a, b, c) := ParseKey(key).value;
            var bay, target := BayOf(a, b, c), TargetText(a, b, c);
            && CommandForLocate(executable, bay, "on") == Ok(Command(executable, [target, "start", "locate"]))
            && CommandForLocate(executable, bay, "off") == Ok(Command(executable, [target, "stop", "locate"]))
            && key == "Drive " + (TargetText(a, b, c) + KEY_END)
            && PlainBay(bay) && Listed(bay)
            && bay == Bay("storcli", "c" + a, "e" + b, "s" + c, "locate", "unknown")
            && (ParseKey(key').Some? && KeyOf(ParseKey(key').value) == KeyOf((a, b, c)) ==> key' == key)
  {
    hide ParseKey, KeyText, TargetText, TargetOf, IsTarget, Path3, PlainBay, Listed, Bay.Key, Digits, KEY_END;
    var (a, b, c) := ParseKey(key).value;
    KeyRoundTrip(key, a, b, c);
    TargetIsPath3(a, b, c);
    TargetOfIsPath3(BayOf(a, b, c));
    TargetTextIsTarget(a, b, c);
    KeyHoldsTarget(a, b, c);
    BayIsPlain(a, b, c);
    BayIsListed(a, b, c);
    if ParseKey(key').Some? {
      var (a', b', c') := ParseKey(key').value;
      KeyRoundTrip(key', a', b', c');
      BayIsPlain(a', b', c');
      SameBaySameDigits(a, b, c, a', b', c');
    }
  }

  lemma BayIsListed(a: string, b: string, c: string)
    requires Digits(a) && Digits(b) && Digits(c)
    ensures Listed(BayOf(a, b, c))
  {
    assert ("c" + a)[1..] == a && ("e" + b)[1..] == b && ("s" + c)[1..] == c;
  }

  lemma KeyHoldsTarget(a: string, b: string, c: string)
    ensures KeyText(a, b, c) == "Drive " + (TargetText(a, b, c) + KEY_END)
  {
  }

  lemma BayIsPlain(a: string, b: string, c: string)
    requires Digits(a) && Digits(b) && Digits(c)
    ensures PlainBay(BayOf(a, b, c))
  {
  }

  lemma SameBaySameDigits(a: string, b: string, c: string, a': string, b': string, c': string)
    requires PlainBay(BayOf(a, b, c)) && PlainBay(BayOf(a', b', c'))
    ensures BayOf(a, b, c).Key() == BayOf(a', b', c').Key() ==> a == a' && b == b' && c == c'
  {
    KeyNamesOneSlot(BayOf(a, b, c), BayOf(a', b', c'));
    assert ("c" + a)[1..] == a && ("c" + a')[1..] == a';
    assert ("e" + b)[1..] == b && ("e" + b')[1..] == b';
    assert ("s" + c)[1..] == c && ("s" + c')[1..] == c';
  }
}
