/** The key order of a BTreeMap<String, _>: strings in lexicographic order, and the one
    strictly increasing listing of a finite set of them. */
module Ordered {

  predicate Less(a: string, b: string) {
    b != [] && (a == [] || a[0] < b[0] || (a[0] == b[0] && Less(a[1..], b[1..])))
  }

  /** A text comes before another exactly when it is a proper prefix of it or has the smaller
      character where the two first differ. */
  lemma {:induction false} LessExact(a: string, b: string)
    ensures Less(a, b) <==> a < b || exists k :: DifferAt(a, b, k) && a[k] < b[k]
  {
    if a != [] && b != [] && a[0] == b[0] {
      LessExact(a[1..], b[1..]);
      assert a < b <==> a[1..] < b[1..] by { assert a == [a[0]] + a[1..] && b == [b[0]] + b[1..]; }
      if k :| DifferAt(a[1..], b[1..], k) && a[1..][k] < b[1..][k] { DifferNext(a, b, k); }
      if k :| DifferAt(a, b, k) && a[k] < b[k] {
        DifferNext(a, b, k - 1);
      }
    } else if a != [] && b != [] {
      assert DifferAt(a, b, 0);
    }
  }

  ghost predicate DifferAt(a: string, b: string, k: int) {
    0 <= k < |a| && k < |b| && a[k] != b[k] && a[..k] == b[..k]
  }

  lemma DifferNext(a: string, b: string, k: nat)
    requires a != [] && b != [] && a[0] == b[0]
    ensures DifferAt(a, b, k + 1) <==> DifferAt(a[1..], b[1..], k)
  {
    if k + 1 < |a| && k + 1 < |b| {
      assert a[..k + 1] == [a[0]] + a[1..][..k] && b[..k + 1] == [b[0]] + b[1..][..k];
      assert a[..k + 1][1..] == a[1..][..k] && b[..k + 1][1..] == b[1..][..k];
    }
  }

  lemma {:induction false} LessTotal(a: string, b: string)
    ensures Less(a, b) || a == b || Less(b, a)
    ensures !(Less(a, b) && Less(b, a))
    ensures !Less(a, a)
  {
    if a != [] && b != [] && a[0] == b[0] {
      LessTotal(a[1..], b[1..]);
      assert a == [a[0]] + a[1..] && b == [b[0]] + b[1..];
    }
    if a != [] { LessTotal(a[1..], a[1..]); }
  }

  lemma {:induction false} LessTransitive(a: string, b: string, c: string)
    requires Less(a, b) && Less(b, c)
    ensures Less(a, c)
  {
    if a != [] && a[0] == b[0] == c[0] {
      LessTransitive(a[1..], b[1..], c[1..]);
    }
  }

  predicate IsLeast(k: string, s: set<string>) {
    k in s && forall j :: j in s && j != k ==> Less(k, j)
  }

  lemma {:induction false} LeastExists(s: set<string>)
    requires s != {}
    ensures exists k :: IsLeast(k, s)
  {
    var x :| x in s;
    if s == {x} {
      assert IsLeast(x, s);
    } else {
      var rest := s - {x};
      LeastExists(rest);
      var y :| IsLeast(y, rest);
      LessTotal(x, y);
      if Less(x, y) {
        forall j | j in s && j != x ensures Less(x, j) {
          if j != y { LessTransitive(x, y, j); }
        }
        assert IsLeast(x, s);
      } else {
        assert IsLeast(y, s);
      }
    }
  }

  function Least(s: set<string>): (k: string)
    requires s != {}
    ensures IsLeast(k, s)
  {
    LeastExists(s);
    forall k, j | IsLeast(k, s) && IsLeast(j, s) ensures k == j { LessTotal(k, j); }
    var k :| k in s && IsLeast(k, s);
    k
  }

  /** The elements of a set, in key order. */
  function Listing(s: set<string>): seq<string>
    decreases |s|
  {
    if s == {} then [] else [Least(s)] + Listing(s - {Least(s)})
  }

  ghost predicate Increasing(ks: seq<string>) {
    forall i, j :: 0 <= i < j < |ks| ==> Less(ks[i], ks[j])
  }

  lemma {:induction false} ListingExact(s: set<string>)
    ensures Increasing(Listing(s))
    ensures forall k :: k in Listing(s) <==> k in s
    decreases |s|
  {
    if s != {} {
      var k := Least(s);
      ListingExact(s - {k});
      var rest := Listing(s - {k});
      assert Listing(s) == [k] + rest;
      forall j | 0 <= j < |rest| ensures Less(k, rest[j]) {
        assert rest[j] in rest;
      }
    }
  }

  lemma ListingIncreases(s: set<string>)
    ensures Increasing(Listing(s))
  {
    ListingExact(s);
  }

  lemma HasElement(ys: seq<string>)
    ensures ys == [] || exists k :: k in ys
  {
    if ys != [] { assert ys[0] in ys; }
  }

  /** A strictly increasing sequence is determined by its elements. */
  lemma {:induction false} IncreasingUnique(xs: seq<string>, ys: seq<string>)
    requires Increasing(xs) && Increasing(ys)
    requires forall k :: k in xs <==> k in ys
    ensures xs == ys
    decreases |xs|
  {
    if xs == [] {
      HasElement(ys);
    } else {
      assert xs[0] in ys;
      var x, y := xs[0], ys[0];
      if x != y {
        assert y in xs;
        LessTotal(x, y);
      }
      forall k ensures k in xs[1..] <==> k in ys[1..] {
        LessTotal(x, x);
        if k in xs[1..] { assert k in xs; }
        if k in ys[1..] { assert k in ys; }
      }
      IncreasingUnique(xs[1..], ys[1..]);
    }
  }

  /** Keys met in order: the listing of what has been kept so far grows at its end. */
  lemma ListingPush(s: set<string>, k: string)
    requires forall j :: j in s ==> Less(j, k)
    ensures Listing(s + {k}) == Listing(s) + [k]
  {
    ListingExact(s);
    ListingExact(s + {k});
    IncreasingUnique(Listing(s + {k}), Listing(s) + [k]);
  }
}
