/** The peer list, as both sides build it: parse every item, refuse repeated identifiers,
    sort by identifier. */
module Peers {
  import opened Outcome
  import opened Domain

  predicate DistinctIds(s: seq<PeerSummary>) {
    forall i, j :: 0 <= i < j < |s| ==> s[i].peerId != s[j].peerId
  }

  predicate Increasing(s: seq<PeerSummary>) {
    forall i, j :: 0 <= i < j < |s| ==> s[i].peerId < s[j].peerId
  }

  predicate Sorted(s: seq<PeerSummary>) {
    forall i, j :: 0 <= i < j < |s| ==> s[i].peerId <= s[j].peerId
  }

  lemma SortedCons(p: PeerSummary, s: seq<PeerSummary>)
    requires Sorted(s) && forall q :: q in s ==> p.peerId <= q.peerId
    ensures Sorted([p] + s)
  {
    assert forall i :: 0 < i < |[p] + s| ==> ([p] + s)[i] == s[i - 1];
  }

  lemma SortedTail(s: seq<PeerSummary>)
    requires Sorted(s) && s != []
    ensures Sorted(s[1..]) && forall q :: q in s ==> s[0].peerId <= q.peerId
  {
  }

  lemma SplitHead<T>(s: seq<T>)
    requires s != []
    ensures s == [s[0]] + s[1..] && multiset(s) == multiset{s[0]} + multiset(s[1..])
  {
    assert s == [s[0]] + s[1..];
  }

  function Insert(p: PeerSummary, s: seq<PeerSummary>): (r: seq<PeerSummary>)
    requires Sorted(s)
    ensures Sorted(r) && multiset(r) == multiset(s) + multiset{p}
    ensures forall q :: q in r <==> q == p || q in s
  {
    hide Sorted;
    if s == [] then SortedCons(p, s); [p] + s
    else
      SortedTail(s);
      if p.peerId <= s[0].peerId then SortedCons(p, s); [p] + s else
      SplitHead(s);
      var r := Insert(p, s[1..]);
      SortedCons(s[0], r);
      [s[0]] + r
  }

  /** `peers.sort(key=lambda p: p.peer_id)` */
  function SortById(s: seq<PeerSummary>): (r: seq<PeerSummary>)
    ensures Sorted(r) && multiset(r) == multiset(s)
  {
    if s == [] then [] else
      SplitHead(s);
      Insert(s[0], SortById(s[1..]))
  }

  predicate AllSome(ps: seq<Option<PeerSummary>>) {
    forall i :: 0 <= i < |ps| ==> ps[i].Some?
  }

  function Values(ps: seq<Option<PeerSummary>>): (vs: seq<PeerSummary>)
    requires AllSome(ps)
    ensures |vs| == |ps| && forall i :: 0 <= i < |ps| ==> vs[i] == ps[i].value
  {
    seq(|ps|, i requires 0 <= i < |ps| => ps[i].value)
  }

  /** What the loop over the items amounts to; `None` is a malformed answer. */
  function Canonical(ps: seq<Option<PeerSummary>>): Option<seq<PeerSummary>> {
    if |ps| <= 256 && AllSome(ps) && DistinctIds(Values(ps)) then Some(SortById(Values(ps))) else None
  }

  /** Two items that carry one identifier make the whole list malformed. */
  lemma RepeatRefused(ps: seq<Option<PeerSummary>>, n: nat)
    requires n < |ps| && ps[n].Some?
    requires exists i :: 0 <= i < n && ps[i].Some? && ps[i].value.peerId == ps[n].value.peerId
    ensures Canonical(ps).None?
  {
    var i :| 0 <= i < n && ps[i].Some? && ps[i].value.peerId == ps[n].value.peerId;
    if AllSome(ps) {
      assert Values(ps)[i].peerId == Values(ps)[n].peerId;
    }
  }

  // ----- Sorting distinct identifiers has one outcome -----

  lemma TwiceInMultiset(s: seq<PeerSummary>, i: nat, j: nat)
    requires i < j < |s| && s[i] == s[j]
    ensures multiset(s)[s[i]] >= 2
  {
    assert s == s[..i] + [s[i]] + s[i + 1..j] + [s[j]] + s[j + 1..];
  }

  lemma {:induction false} FindTwice(s: seq<PeerSummary>, p: PeerSummary) returns (i: nat, j: nat)
    requires multiset(s)[p] >= 2
    ensures i < j < |s| && s[i] == s[j] == p
  {
    assert s == [s[0]] + s[1..];
    if s[0] == p {
      assert p in multiset(s[1..]);
      i := 0;
      j :| 1 <= j < |s| && s[j] == p;
    } else {
      i, j := FindTwice(s[1..], p);
      i, j := i + 1, j + 1;
    }
  }

  lemma DistinctUnderPermutation(a: seq<PeerSummary>, b: seq<PeerSummary>)
    requires multiset(a) == multiset(b) && DistinctIds(a)
    ensures DistinctIds(b)
  {
    forall i, j | 0 <= i < j < |b|
      ensures b[i].peerId != b[j].peerId
    {
      if b[i] == b[j] {
        TwiceInMultiset(b, i, j);
        var k, l := FindTwice(a, b[i]);
        assert false;
      } else {
        assert b[i] in multiset(a) && b[j] in multiset(a);
        var k :| 0 <= k < |a| && a[k] == b[i];
        var l :| 0 <= l < |a| && a[l] == b[j];
        assert k != l;
      }
    }
  }

  lemma SameFirst(a: seq<PeerSummary>, b: seq<PeerSummary>)
    requires Increasing(a) && Increasing(b) && a != [] && multiset(a) == multiset(b)
    ensures b != [] && a[0] == b[0]
  {
    assert a[0] in multiset(b);
    var k :| 0 <= k < |b| && b[k] == a[0];
    assert b[0] in multiset(a);
    var l :| 0 <= l < |a| && a[l] == b[0];
  }

  lemma RemoveAt<T>(s: seq<T>, k: nat)
    requires k < |s|
    ensures multiset(s[..k] + s[k + 1..]) == multiset(s) - multiset{s[k]}
  {
    assert s == s[..k] + [s[k]] + s[k + 1..];
  }

  lemma TailMultiset<T>(s: seq<T>)
    requires s != []
    ensures multiset(s[1..]) == multiset(s) - multiset{s[0]}
  {
    assert s == [s[0]] + s[1..];
  }

  /** A strictly increasing arrangement of given peers is unique. */
  lemma {:induction false} IncreasingUnique(a: seq<PeerSummary>, b: seq<PeerSummary>)
    requires Increasing(a) && Increasing(b) && multiset(a) == multiset(b)
    ensures a == b
    decreases |a|
  {
    assert |a| == |multiset(a)| == |b|;
    if a != [] {
      SameFirst(a, b);
      TailMultiset(a);
      TailMultiset(b);
      var ta, tb := a[1..], b[1..];
      IncreasingUnique(ta, tb);
      assert a == [a[0]] + ta;
      assert b == [b[0]] + tb;
    }
  }

  lemma SortedDistinct(s: seq<PeerSummary>)
    requires DistinctIds(s)
    ensures Increasing(SortById(s))
  {
    DistinctUnderPermutation(s, SortById(s));
  }

  /** On success the result is strictly increasing in identifier, holds at most 256 peers,
      and is a rearrangement of what was parsed. */
  lemma CanonicalSound(ps: seq<Option<PeerSummary>>)
    ensures Canonical(ps).Some? ==>
      var t := Canonical(ps).value;
      Increasing(t) && |t| <= 256 && AllSome(ps) && multiset(t) == multiset(Values(ps))
  {
    if Canonical(ps).Some? {
      SortedDistinct(Values(ps));
      assert |SortById(Values(ps))| == |multiset(SortById(Values(ps)))|;
      assert |ps| == |multiset(Values(ps))|;
    }
  }

  /** What the pass over the items comes to, exactly. */
  lemma CanonicalIff(ps: seq<Option<PeerSummary>>, t: seq<PeerSummary>)
    ensures Canonical(ps) == Some(t) <==>
      |ps| <= 256 && AllSome(ps) && Increasing(t) && multiset(t) == multiset(Values(ps))
  {
    CanonicalSound(ps);
    if |ps| <= 256 && AllSome(ps) && Increasing(t) && multiset(t) == multiset(Values(ps)) {
      DistinctUnderPermutation(t, Values(ps));
      SortedDistinct(Values(ps));
      IncreasingUnique(t, SortById(Values(ps)));
    }
  }

  lemma {:induction false} CountValues(ps: seq<Option<PeerSummary>>, p: PeerSummary)
    requires AllSome(ps)
    ensures multiset(Values(ps))[p] == multiset(ps)[Some(p)]
  {
    if ps == [] {
    } else {
      CountValues(ps[1..], p);
      SplitHead(ps);
      var vs := Values(ps);
      SplitHead(vs);
      assert vs[1..] == Values(ps[1..]);
    }
  }

  /** The outcome does not depend on the order in which the items were listed. */
  lemma CanonicalPermutation(a: seq<Option<PeerSummary>>, b: seq<Option<PeerSummary>>)
    requires multiset(a) == multiset(b)
    ensures Canonical(a) == Canonical(b)
  {
    assert |a| == |multiset(a)| == |b|;
    if AllSome(b) {
      AllSomePermuted(b, a);
    }
    if AllSome(a) {
      AllSomePermuted(a, b);
      forall p ensures multiset(Values(a))[p] == multiset(Values(b))[p] {
        CountValues(a, p);
        CountValues(b, p);
      }
      var va, vb := Values(a), Values(b);
      assert multiset(va) == multiset(vb);
      if DistinctIds(va) {
        DistinctUnderPermutation(va, vb);
        SortedDistinct(va);
        SortedDistinct(vb);
        IncreasingUnique(SortById(va), SortById(vb));
      } else if DistinctIds(vb) {
        DistinctUnderPermutation(vb, va);
      }
    }
  }

  lemma AllSomePermuted(a: seq<Option<PeerSummary>>, b: seq<Option<PeerSummary>>)
    requires multiset(a) == multiset(b) && AllSome(a)
    ensures AllSome(b)
  {
    forall i | 0 <= i < |b| ensures b[i].Some? {
      assert b[i] in multiset(a);
    }
  }

  /** A canonical list is its own canonical form. */
  lemma CanonicalFixed(t: seq<PeerSummary>, ps: seq<Option<PeerSummary>>)
    requires Increasing(t) && |t| <= 256 && |ps| == |t|
    requires forall i :: 0 <= i < |t| ==> ps[i] == Some(t[i])
    ensures Canonical(ps) == Some(t)
  {
    assert Values(ps) == t;
    SortedDistinct(t);
    IncreasingUnique(t, SortById(t));
  }

  // ----- Mapping a parser over the items -----

  function Map<A, B>(f: A -> B, s: seq<A>): (r: seq<B>)
    ensures |r| == |s| && forall i :: 0 <= i < |s| ==> r[i] == f(s[i])
  {
    seq(|s|, i requires 0 <= i < |s| => f(s[i]))
  }

  lemma MapRemoveAt<A, B>(f: A -> B, s: seq<A>, k: nat)
    requires k < |s|
    ensures multiset(Map(f, s)) == multiset(Map(f, s[..k] + s[k + 1..])) + multiset{f(s[k])}
  {
    var m := Map(f, s);
    RemoveAt(m, k);
    assert Map(f, s[..k] + s[k + 1..]) == m[..k] + m[k + 1..];
    assert m[k] in multiset(m);
  }

  lemma RemoveMatching<A>(a: seq<A>, b: seq<A>) returns (k: nat)
    requires multiset(a) == multiset(b) && a != []
    ensures k < |b| && b[k] == a[0] && multiset(a[..0] + a[1..]) == multiset(b[..k] + b[k + 1..])
  {
    assert a[0] in multiset(b);
    k :| 0 <= k < |b| && b[k] == a[0];
    RemoveAt(a, 0);
    RemoveAt(b, k);
  }

  lemma {:induction false} MapPermutation<A, B>(f: A -> B, a: seq<A>, b: seq<A>)
    requires multiset(a) == multiset(b)
    ensures multiset(Map(f, a)) == multiset(Map(f, b))
    decreases |a|
  {
    assert |a| == |multiset(a)| == |multiset(b)| == |b|;
    if a == [] {
      assert Map(f, a) == Map(f, b);
    } else {
      hide Map;
      var k := RemoveMatching(a, b);
      MapPermutation(f, a[..0] + a[1..], b[..k] + b[k + 1..]);
      MapRemoveAt(f, a, 0);
      MapRemoveAt(f, b, k);
    }
  }
}
