/** Sorted listings of string sets, and partitions of sequences by a key. */
module Listing {

  /** Byte-wise order of Go strings. */
  predicate Less(a: string, b: string) {
    if b == [] then false
    else if a == [] then true
    else a[0] < b[0] || (a[0] == b[0] && Less(a[1..], b[1..]))
  }

  lemma {:induction false} LessTotal(a: string, b: string)
    ensures !(Less(a, b) && Less(b, a))
    ensures a == b || Less(a, b) || Less(b, a)
    ensures a == b ==> !Less(a, b)
  {
    if a != [] && b != [] && a[0] == b[0] {
      LessTotal(a[1..], b[1..]);
      assert a == [a[0]] + a[1..] && b == [b[0]] + b[1..];
    }
  }

  lemma {:induction false} LessTransitive(a: string, b: string, c: string)
    requires Less(a, b) && Less(b, c)
    ensures Less(a, c)
  {
    if a != [] && a[0] == b[0] && b[0] == c[0] {
      LessTransitive(a[1..], b[1..], c[1..]);
    }
  }

  predicate Sorted(ks: seq<string>) {
    forall i, j | 0 <= i < j < |ks| :: Less(ks[i], ks[j])
  }

  /** The strings of a set in increasing order. */
  ghost predicate ListingOf(ks: seq<string>, s: set<string>) {
    Sorted(ks) && forall k :: k in ks <==> k in s
  }

  /** A set has only one sorted listing. */
  lemma {:induction false} ListingUnique(a: seq<string>, b: seq<string>, s: set<string>)
    requires ListingOf(a, s) && ListingOf(b, s)
    ensures a == b
    decreases |a|
  {
    if a == [] {
      NoMembers(b);
    } else {
      assert a[0] in s && a[0] in b;
      assert b != [];
      assert b[0] in s && b[0] in a;
      var i :| 0 <= i < |b| && b[i] == a[0];
      var j :| 0 <= j < |a| && a[j] == b[0];
      LessTotal(a[0], b[0]);
      assert a[0] == b[0];
      TailListing(a, s);
      TailListing(b, s);
      ListingUnique(a[1..], b[1..], s - {a[0]});
      assert a == [a[0]] + a[1..] && b == [b[0]] + b[1..];
    }
  }

  lemma TailListing(a: seq<string>, s: set<string>)
    requires ListingOf(a, s) && a != []
    ensures ListingOf(a[1..], s - {a[0]})
  {
    LessTotal(a[0], a[0]);
    assert forall i | 1 <= i < |a| :: Less(a[0], a[i]);
    forall k ensures k in a[1..] <==> k in s - {a[0]} {
      if k in a[1..] {
        var i :| 1 <= i < |a| && a[i] == k;
        assert k in a;
      }
      if k in s && k != a[0] {
        var i :| 0 <= i < |a| && a[i] == k;
        assert a[1..][i - 1] == k;
      }
    }
  }

  lemma ListingNoRepeats(ks: seq<string>, s: set<string>)
    requires ListingOf(ks, s)
    ensures NoRepeats(ks)
  {
    forall i, j | 0 <= i < j < |ks| ensures ks[i] != ks[j] { LessTotal(ks[i], ks[j]); }
  }

  /** sort.Strings over the keys of a map, which come in an arbitrary order. */
  method SortStrings(s: set<string>) returns (ks: seq<string>)
    ensures ListingOf(ks, s)
  {
    ks := [];
    var rest := s;
    while rest != {}
      invariant rest <= s && Sorted(ks)
      invariant forall k :: k in ks <==> k in s && k !in rest
      invariant forall i, k | 0 <= i < |ks| && k in rest :: Less(ks[i], k)
      decreases |rest|
    {
      var least := Least(rest);
      ks := ks + [least];
      rest := rest - {least};
    }
  }

  method Least(s: set<string>) returns (least: string)
    requires s != {}
    ensures least in s && forall k | k in s && k != least :: Less(least, k)
  {
    least :| least in s;
    var rest := s - {least};
    while rest != {}
      invariant rest <= s && least in s && least !in rest
      invariant forall k | k in s && k !in rest && k != least :: Less(least, k)
      decreases |rest|
    {
      var k :| k in rest;
      LessTotal(k, least);
      if Less(k, least) {
        forall j | j in s && j !in rest && j != least ensures Less(k, j) { LessTransitive(k, least, j); }
        least := k;
      }
      rest := rest - {k};
    }
  }

  lemma {:induction false} LeastExists(s: set<string>) returns (least: string)
    requires s != {}
    ensures least in s && forall k | k in s && k != least :: Less(least, k)
    decreases |s|
  {
    var k :| k in s;
    var rest := s - {k};
    assert forall j | j in s && j != k :: j in rest;
    if rest == {} {
      least := k;
    } else {
      least := LeastExists(rest);
      LessTotal(k, least);
      if Less(k, least) {
        forall j | j in s && j != k ensures Less(k, j) { if j != least { LessTransitive(k, least, j); } }
        least := k;
      }
    }
  }

  lemma {:induction false} ListingExists(s: set<string>) returns (ks: seq<string>)
    ensures ListingOf(ks, s)
    decreases |s|
  {
    if s == {} {
      ks := [];
    } else {
      var least := LeastExists(s);
      var rest := ListingExists(s - {least});
      ks := [least] + rest;
      assert forall i | 0 <= i < |rest| :: rest[i] in s - {least};
    }
  }

  /** The sorted listing of a set. */
  ghost function Listed(s: set<string>): (ks: seq<string>)
    ensures ListingOf(ks, s)
  {
    assert exists l :: ListingOf(l, s) by { var l := ListingExists(s); }
    var l :| ListingOf(l, s);
    l
  }

  // ---------- Partitions ----------

  /** The elements with a given key, in order. */
  function Class<X(!new), K(==)>(xs: seq<X>, key: X -> K, k: K): (r: seq<X>)
    ensures forall x :: x in r <==> x in xs && key(x) == k
  {
    if xs == [] then []
    else
      var init, last := xs[..|xs| - 1], xs[|xs| - 1];
      assert xs == init + [last];
      Class(init, key, k) + (if key(last) == k then [last] else [])
  }

  /** The bags of the classes of a list of keys. */
  function Classes<X(!new), K(==)>(xs: seq<X>, key: X -> K, ks: seq<K>): multiset<X> {
    if ks == [] then multiset{}
    else multiset(Class(xs, key, ks[|ks| - 1])) + Classes(xs, key, ks[..|ks| - 1])
  }

  predicate NoRepeats<K(==)>(ks: seq<K>) {
    forall i, j | 0 <= i < j < |ks| :: ks[i] != ks[j]
  }

  lemma ClassSnoc<X(!new), K>(xs: seq<X>, x: X, key: X -> K, k: K)
    ensures Class(xs + [x], key, k) == Class(xs, key, k) + (if key(x) == k then [x] else [])
  {
    assert (xs + [x])[..|xs + [x]| - 1] == xs;
  }

  lemma {:induction false} ClassesSnoc<X(!new), K>(xs: seq<X>, x: X, key: X -> K, ks: seq<K>)
    requires NoRepeats(ks)
    ensures Classes(xs + [x], key, ks) == Classes(xs, key, ks) + (if key(x) in ks then multiset{x} else multiset{})
  {
    hide Class;
    if ks != [] {
      var k, init := ks[|ks| - 1], ks[..|ks| - 1];
      ClassesSnoc(xs, x, key, init);
      ClassSnoc(xs, x, key, k);
      assert ks == init + [k];
      assert key(x) == k ==> key(x) !in init;
    }
  }

  /** A sequence is the sum of its classes, in whatever order the keys are listed. */
  lemma {:induction false} Partition<X(!new), K>(xs: seq<X>, key: X -> K, ks: seq<K>)
    requires NoRepeats(ks) && forall x | x in xs :: key(x) in ks
    ensures Classes(xs, key, ks) == multiset(xs)
  {
    hide Class, Classes;
    if xs == [] {
      ClassesEmpty<X, K>(key, ks);
    } else {
      var init, x := xs[..|xs| - 1], xs[|xs| - 1];
      assert xs == init + [x];
      Partition(init, key, ks);
      ClassesSnoc(init, x, key, ks);
    }
  }

  lemma {:induction false} ClassesEmpty<X(!new), K>(key: X -> K, ks: seq<K>)
    ensures Classes([], key, ks) == multiset{}
  {
    if ks != [] { ClassesEmpty(key, ks[..|ks| - 1]); }
  }

  // ---------- Sums over listings ----------

  function Sum<K, X>(f: K -> multiset<X>, ks: seq<K>): multiset<X> {
    if ks == [] then multiset{} else Sum(f, ks[..|ks| - 1]) + f(ks[|ks| - 1])
  }

  lemma {:induction false} SumWithout<K, X>(f: K -> multiset<X>, ks: seq<K>, i: nat)
    requires i < |ks|
    ensures Sum(f, ks) == Sum(f, ks[..i] + ks[i + 1..]) + f(ks[i])
    decreases |ks|
  {
    var n := |ks| - 1;
    if i == n {
      assert ks[..i] + ks[i + 1..] == ks[..n];
    } else {
      SumWithout(f, ks[..n], i);
      var rest := ks[..i] + ks[i + 1..];
      assert ks[..n][..i] + ks[..n][i + 1..] == rest[..|rest| - 1];
      assert rest[|rest| - 1] == ks[n];
    }
  }

  lemma NoMembers<K>(b: seq<K>)
    ensures b == [] || exists k :: k in b
  {
    if b != [] { assert b[0] in b; }
  }

  lemma WithoutMembers<K>(b: seq<K>, i: nat)
    requires NoRepeats(b) && i < |b|
    ensures var rest := b[..i] + b[i + 1..];
            NoRepeats(rest) && forall k :: k in rest <==> k in b && k != b[i]
  {
    var rest := b[..i] + b[i + 1..];
    forall k | k in b && k != b[i] ensures k in rest {
      var m :| 0 <= m < |b| && b[m] == k;
      assert k == rest[if m < i then m else m - 1];
    }
    forall k | k in rest ensures k in b && k != b[i] {
      var m :| 0 <= m < |rest| && rest[m] == k;
      assert b[if m < i then m else m + 1] == k;
    }
  }

  /** A sum does not depend on the order of its keys. */
  lemma {:induction false} SumOrder<K, X>(f: K -> multiset<X>, a: seq<K>, b: seq<K>)
    requires NoRepeats(a) && NoRepeats(b) && (forall k | k in a :: k in b) && (forall k | k in b :: k in a)
    ensures Sum(f, a) == Sum(f, b)
    decreases |a|
  {
    if a == [] {
      NoMembers(b);
    } else {
      var n := |a| - 1;
      assert a[n] in b;
      var i :| 0 <= i < |b| && b[i] == a[n];
      var rest := b[..i] + b[i + 1..];
      SumWithout(f, b, i);
      WithoutMembers(b, i);
      assert a == a[..n] + [a[n]];
      forall k | k in a[..n] ensures k != a[n] {
        var j :| 0 <= j < n && a[j] == k;
      }
      SumOrder(f, a[..n], rest);
    }
  }
}
