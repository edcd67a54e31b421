/** Byte-wise string order and the sorted listing of a finite set of keys.
    Every loop over a map of LED owners first sorts the keys this way. */
module Order {

  predicate Before(a: string, b: string) {
    |b| > 0 && (|a| == 0 || a[0] < b[0] || (a[0] == b[0] && Before(a[1..], b[1..])))
  }

  lemma {:induction false} Trichotomy(a: string, b: string)
    ensures Before(a, b) || a == b || Before(b, a)
    ensures !(Before(a, b) && Before(b, a))
    ensures !Before(a, a)
  {
    if |a| > 0 {
      Trichotomy(a[1..], a[1..]);
      if |b| > 0 && a[0] == b[0] {
        Trichotomy(a[1..], b[1..]);
        assert a == [a[0]] + a[1..];
        assert b == [b[0]] + b[1..];
      }
    }
  }

  lemma {:induction false} Transitive(a: string, b: string, c: string)
    requires Before(a, b) && Before(b, c)
    ensures Before(a, c)
  {
    if |a| > 0 && a[0] == b[0] && b[0] == c[0] {
      Transitive(a[1..], b[1..], c[1..]);
    }
  }

  /** a and b agree up to position k, where a ends or has the smaller character. */
  predicate SmallerAt(a: string, b: string, k: nat) {
    k <= |a| && k < |b| && (forall j | 0 <= j < k :: a[j] == b[j]) && (k == |a| || a[k] < b[k])
  }

  lemma {:induction false} BeforeIff(a: string, b: string)
    ensures Before(a, b) <==> exists k: nat :: SmallerAt(a, b, k)
  {
    if |a| > 0 && |b| > 0 && a[0] == b[0] {
      BeforeIff(a[1..], b[1..]);
      forall k: nat ensures SmallerAt(a[1..], b[1..], k) <==> SmallerAt(a, b, k + 1) {
      }
      forall k: nat | SmallerAt(a, b, k) ensures k > 0 && SmallerAt(a[1..], b[1..], k - 1) {
      }
    } else {
      assert |b| > 0 && (|a| == 0 || a[0] < b[0]) ==> SmallerAt(a, b, 0);
    }
  }

  ghost predicate Sorted(ks: seq<string>) {
    forall i, j | 0 <= i < j < |ks| :: Before(ks[i], ks[j])
  }

  ghost predicate Lists(ks: seq<string>, s: set<string>) {
    Sorted(ks) && forall k :: k in ks <==> k in s
  }

  function Insert(x: string, ks: seq<string>): seq<string> {
    if ks == [] then [x]
    else if Before(x, ks[0]) then [x] + ks
    else [ks[0]] + Insert(x, ks[1..])
  }

  lemma {:induction false} InsertLists(x: string, ks: seq<string>, s: set<string>)
    requires Lists(ks, s) && x !in s
    ensures Lists(Insert(x, ks), s + {x})
  {
    if ks != [] {
      Trichotomy(x, ks[0]);
      if Before(x, ks[0]) {
        forall i | 0 <= i < |ks| ensures Before(x, ks[i]) {
          if i > 0 { Transitive(x, ks[0], ks[i]); }
        }
      } else {
        var rest := ks[1..];
        var s' := s - {ks[0]};
        Trichotomy(ks[0], ks[0]);
        forall k ensures k in rest <==> k in s' {
          if k in rest {
            var i :| 0 <= i < |rest| && rest[i] == k;
            assert k == ks[i + 1];
          }
          if k in s' {
            assert k in ks;
          }
        }
        InsertLists(x, rest, s');
        var tail := Insert(x, rest);
        assert ks[0] != x;
        forall i | 0 <= i < |tail| ensures Before(ks[0], tail[i]) {
          assert tail[i] in tail;
          assert tail[i] in s' + {x};
        }
        forall k ensures k in Insert(x, ks) <==> k in s + {x} {
          assert k in tail <==> k in s' + {x};
        }
      }
    }
  }

  lemma ListingExists(s: set<string>) returns (ks: seq<string>)
    ensures Lists(ks, s)
  {
    if s == {} {
      ks := [];
    } else {
      var x :| x in s;
      var rest := ListingExists(s - {x});
      InsertLists(x, rest, s - {x});
      assert s - {x} + {x} == s;
      ks := Insert(x, rest);
    }
  }

  /** The keys of s in ascending order. */
  ghost function Listing(s: set<string>): (ks: seq<string>)
    ensures Lists(ks, s)
  {
    assert exists ks :: Lists(ks, s) by {
      var ks := ListingExists(s);
    }
    var ks :| Lists(ks, s);
    ks
  }

  lemma EmptyListing(s: set<string>)
    ensures s == {} ==> Listing(s) == []
  {
    var ks := Listing(s);
    if ks != [] { assert ks[0] in s; }
  }

  lemma ListingOfOne(k: string)
    ensures Listing({k}) == [k] && Sorted([k])
  {
    ListingUnique(Listing({k}), [k], {k});
  }

  /** A sorted listing is unique, so the order of map iteration cannot show. */
  lemma {:induction false} ListingUnique(a: seq<string>, b: seq<string>, s: set<string>)
    requires Lists(a, s) && Lists(b, s)
    ensures a == b
  {
    assert a != [] ==> a[0] in b;
    assert b != [] ==> b[0] in a;
    if a != [] && b != [] {
      Trichotomy(a[0], b[0]);
      assert a[0] == b[0];
      Trichotomy(a[0], a[0]);
      DropHead(a, s);
      DropHead(b, s);
      ListingUnique(a[1..], b[1..], s - {a[0]});
      assert a == [a[0]] + a[1..] && b == [b[0]] + b[1..];
    }
  }

  lemma DropHead(a: seq<string>, s: set<string>)
    requires Lists(a, s) && a != []
    ensures Lists(a[1..], s - {a[0]})
  {
    Trichotomy(a[0], a[0]);
    forall k ensures k in a[1..] <==> k in s - {a[0]} {
      if k in a[1..] {
        var i :| 0 <= i < |a[1..]| && a[1..][i] == k;
        assert k == a[i + 1];
      }
      if k in s - {a[0]} { assert k in a; }
    }
  }

  /** Collects the keys in whatever order the map yields them and keeps them sorted. */
  method SortedKeys(s: set<string>) returns (ks: seq<string>)
    ensures ks == Listing(s)
  {
    ks := [];
    var rest := s;
    while rest != {}
      invariant rest <= s
      invariant Lists(ks, s - rest)
      decreases |rest|
    {
      var x :| x in rest;
      InsertLists(x, ks, s - rest);
      assert s - rest + {x} == s - (rest - {x});
      ks := Insert(x, ks);
      rest := rest - {x};
    }
    assert s - rest == s;
    ListingUnique(ks, Listing(s), s);
  }
}
