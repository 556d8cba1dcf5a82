/**
 * Python's `Counter(xs).most_common(n)`, which the analyzer uses for both word and
 * phrase frequencies. A `Counter` is an insertion-ordered dictionary, so the tally is a
 * list of (key, count) pairs in first-seen order; `most_common(n)` is
 * `sorted(items, key=count, reverse=True)[:n]`, a stable sort, so equal counts keep
 * first-seen order.
 */
module Ranking {

  type Entry = (string, nat)

  function Keys(t: seq<Entry>): (ks: seq<string>)
    ensures |ks| == |t|
    ensures forall i :: 0 <= i < |t| ==> ks[i] == t[i].0
  {
    seq(|t|, i requires 0 <= i < |t| => t[i].0)
  }

  predicate DistinctKeys(t: seq<Entry>)
  {
    forall i, j :: 0 <= i < j < |t| ==> t[i].0 != t[j].0
  }

  /** Position of the first occurrence of `w` in `ws`. */
  function FirstIndex(ws: seq<string>, w: string): (i: nat)
    requires w in ws
    ensures i < |ws| && ws[i] == w && w !in ws[..i]
  {
    if w in ws[..|ws| - 1] then FirstIndex(ws[..|ws| - 1], w) else |ws| - 1
  }

  predicate HasKey(t: seq<Entry>, w: string)
  {
    exists i :: 0 <= i < |t| && t[i].0 == w
  }

  /** One `Counter` increment: bump the entry of `w`, or append `w` with count 1. */
  function Bump(t: seq<Entry>, w: string): (r: seq<Entry>)
    requires DistinctKeys(t)
    ensures |r| == if HasKey(t, w) then |t| else |t| + 1
    ensures forall i :: 0 <= i < |t| ==>
              r[i].0 == t[i].0 && r[i].1 == t[i].1 + (if t[i].0 == w then 1 else 0)
    ensures !HasKey(t, w) ==> r[|t|] == (w, 1)
  {
    if t == [] then [(w, 1)]
    else if t[0].0 == w then [(w, t[0].1 + 1)] + t[1..]
    else
      assert HasKey(t, w) <==> HasKey(t[1..], w) by {
        if HasKey(t, w) {
          var k :| 0 <= k < |t| && t[k].0 == w;
          assert t[1..][k - 1].0 == w;
        }
      }
      [t[0]] + Bump(t[1..], w)
  }

  lemma BumpDistinct(t: seq<Entry>, w: string)
    requires DistinctKeys(t)
    ensures DistinctKeys(Bump(t, w))
  {
  }

  /** `Counter(ws)` as its list of items. */
  function Tally(ws: seq<string>): (t: seq<Entry>)
    ensures DistinctKeys(t)
  {
    if ws == [] then []
    else
      var t0 := Tally(ws[..|ws| - 1]);
      BumpDistinct(t0, ws[|ws| - 1]);
      Bump(t0, ws[|ws| - 1])
  }

  /** The tally of a non-empty list bumps the tally of all but its last element. */
  lemma TallyLast(ws: seq<string>, init: seq<string>, x: string)
    requires ws == init + [x]
    ensures Tally(ws) == Bump(Tally(init), x)
  {
    assert ws[..|ws| - 1] == init;
  }

  /** After bumping `x`, the keys are the old ones and `x`. */
  lemma BumpKeys(t: seq<Entry>, x: string, w: string)
    requires DistinctKeys(t)
    ensures HasKey(Bump(t, x), w) <==> HasKey(t, w) || w == x
  {
    var r := Bump(t, x);
    if HasKey(t, w) {
      var k :| 0 <= k < |t| && t[k].0 == w;
      assert r[k].0 == w;
    } else if w == x {
      assert r[|t|].0 == x;
    }
    if HasKey(r, w) {
      var k :| 0 <= k < |r| && r[k].0 == w;
      if k < |t| { assert t[k].0 == w; }
    }
  }

  /** The keys of the tally are exactly the elements of `ws`. */
  lemma {:induction false} TallyCovers(ws: seq<string>)
    ensures forall w :: w in ws <==> HasKey(Tally(ws), w)
  {
    if ws != [] {
      var init, x := ws[..|ws| - 1], ws[|ws| - 1];
      assert ws == init + [x];
      TallyCovers(init);
      TallyLast(ws, init, x);
      forall w ensures w in ws <==> HasKey(Tally(ws), w) {
        BumpKeys(Tally(init), x, w);
      }
    }
  }

  /** Appending does not move the first occurrence of an element already present. */
  lemma FirstIndexAppend(init: seq<string>, x: string, w: string)
    requires w in init + [x]
    ensures FirstIndex(init + [x], w) == if w in init then FirstIndex(init, w) else |init|
  {
    assert (init + [x])[..|init|] == init;
  }

  /** One pair of keys after a bump, given the order of the keys before it. */
  lemma FirstSeenStep(init: seq<string>, x: string, t0: seq<Entry>, i: nat, j: nat)
    requires DistinctKeys(t0) && forall w :: w in init <==> HasKey(t0, w)
    requires i < j < |Bump(t0, x)|
    requires j < |t0| ==> t0[i].0 in init && t0[j].0 in init && FirstIndex(init, t0[i].0) < FirstIndex(init, t0[j].0)
    ensures var t := Bump(t0, x);
      t[i].0 in init + [x] && t[j].0 in init + [x] &&
      FirstIndex(init + [x], t[i].0) < FirstIndex(init + [x], t[j].0)
  {
    var t := Bump(t0, x);
    var a, b := t[i].0, t[j].0;
    assert a == t0[i].0 && HasKey(t0, a);
    assert a in init;
    FirstIndexAppend(init, x, a);
    assert FirstIndex(init + [x], a) == FirstIndex(init, a) < |init|;
    if j < |t0| {
      assert b == t0[j].0 && HasKey(t0, b);
      FirstIndexAppend(init, x, b);
    } else {
      assert b == x && !HasKey(t0, x);
      FirstIndexAppend(init, x, b);
      assert FirstIndex(init + [x], b) == |init|;
    }
  }

  /** The keys of the tally are in first-seen order. */
  lemma {:induction false} TallyFirstSeen(ws: seq<string>)
    ensures forall i, j :: 0 <= i < j < |Tally(ws)| ==>
              Tally(ws)[i].0 in ws && Tally(ws)[j].0 in ws &&
              FirstIndex(ws, Tally(ws)[i].0) < FirstIndex(ws, Tally(ws)[j].0)
  {
    if ws != [] {
      var init, x := ws[..|ws| - 1], ws[|ws| - 1];
      assert ws == init + [x];
      TallyFirstSeen(init);
      TallyCovers(init);
      TallyLast(ws, init, x);
      var t0 := Tally(init);
      var t := Tally(ws);
      forall i, j | 0 <= i < j < |t|
        ensures t[i].0 in ws && t[j].0 in ws && FirstIndex(ws, t[i].0) < FirstIndex(ws, t[j].0)
      {
        FirstSeenStep(init, x, t0, i, j);
      }
    } else {
      assert Tally(ws) == [];
    }
  }

  /** Every key of the tally occurs in `ws` and carries its number of occurrences. */
  lemma {:induction false} TallyCounts(ws: seq<string>)
    ensures forall i :: 0 <= i < |Tally(ws)| ==> Tally(ws)[i].1 == multiset(ws)[Tally(ws)[i].0]
  {
    if ws != [] {
      var init, x := ws[..|ws| - 1], ws[|ws| - 1];
      assert ws == init + [x];
      TallyCounts(init);
      TallyCovers(init);
      var t0 := Tally(init);
      var t := Tally(ws);
      forall i | 0 <= i < |t| ensures t[i].1 == multiset(ws)[t[i].0] {
        if i < |t0| {
          assert t0[i].0 == t[i].0;
        } else {
          assert x !in init;
        }
      }
    }
  }

  /** Inserts `x` after every entry whose count is at least its own. */
  function InsertDesc(s: seq<Entry>, x: Entry): (r: seq<Entry>)
    ensures |r| == |s| + 1
    ensures multiset(r) == multiset(s) + multiset{x}
  {
    if s == [] then [x]
    else if s[0].1 >= x.1 then
      assert s == [s[0]] + s[1..];
      [s[0]] + InsertDesc(s[1..], x)
    else [x] + s
  }

  /** Stable insertion sort by descending count (later entries go after equal ones). */
  function SortDesc(t: seq<Entry>): (r: seq<Entry>)
    ensures |r| == |t|
    ensures multiset(r) == multiset(t)
  {
    if t == [] then []
    else
      assert t == t[..|t| - 1] + [t[|t| - 1]];
      InsertDesc(SortDesc(t[..|t| - 1]), t[|t| - 1])
  }

  function Take(s: seq<Entry>, n: nat): (r: seq<Entry>)
    ensures |r| <= n && |r| <= |s| && r == s[..|r|]
    ensures |r| == if n < |s| then n else |s|
  {
    if n < |s| then s[..n] else s
  }

  /** `a` goes before `b`: a higher count, or the same count and a smaller rank. */
  predicate Before(rank: string -> int, a: Entry, b: Entry)
  {
    a.1 > b.1 || (a.1 == b.1 && rank(a.0) < rank(b.0))
  }

  predicate Ordered(rank: string -> int, s: seq<Entry>)
  {
    forall i, j :: 0 <= i < j < |s| ==> Before(rank, s[i], s[j])
  }

  lemma ConsOrdered(rank: string -> int, a: Entry, s: seq<Entry>)
    requires Ordered(rank, s)
    requires forall e :: e in s ==> Before(rank, a, e)
    ensures Ordered(rank, [a] + s)
  {
    var r := [a] + s;
    forall i, j | 0 <= i < j < |r| ensures Before(rank, r[i], r[j]) {
      assert r[j] == s[j - 1];
      if i > 0 { assert r[i] == s[i - 1]; }
    }
  }

  lemma TailOrdered(rank: string -> int, s: seq<Entry>)
    requires Ordered(rank, s) && s != []
    ensures Ordered(rank, s[1..])
    ensures forall e :: e in s[1..] ==> Before(rank, s[0], e)
  {
    var t := s[1..];
    forall i, j | 0 <= i < j < |t| ensures Before(rank, t[i], t[j]) {
      assert t[i] == s[i + 1] && t[j] == s[j + 1];
    }
    forall e | e in t ensures Before(rank, s[0], e) {
      var k :| 0 <= k < |t| && t[k] == e;
      assert s[k + 1] == e;
    }
  }

  lemma {:induction false} InsertKeepsOrder(rank: string -> int, s: seq<Entry>, x: Entry)
    requires Ordered(rank, s)
    requires forall e :: e in s ==> rank(e.0) < rank(x.0)
    ensures Ordered(rank, InsertDesc(s, x))
  {
    if s == [] {
    } else if s[0].1 >= x.1 {
      var tail := s[1..];
      TailOrdered(rank, s);
      InsertKeepsOrder(rank, tail, x);
      var rest := InsertDesc(tail, x);
      forall e | e in rest ensures Before(rank, s[0], e) {
        assert e in multiset(rest);
        if e != x {
          assert e in multiset(tail);
        }
      }
      ConsOrdered(rank, s[0], rest);
    } else {
      TailOrdered(rank, s);
      ConsOrdered(rank, x, s);
    }
  }

  /** Sorting a list whose ranks increase orders it by count, then by rank. */
  lemma {:induction false} SortOrders(rank: string -> int, t: seq<Entry>)
    requires forall i, j :: 0 <= i < j < |t| ==> rank(t[i].0) < rank(t[j].0)
    ensures Ordered(rank, SortDesc(t))
  {
    if t != [] {
      var init, x := t[..|t| - 1], t[|t| - 1];
      assert forall i, j :: 0 <= i < j < |init| ==> rank(init[i].0) < rank(init[j].0) by {
        forall i, j | 0 <= i < j < |init| ensures rank(init[i].0) < rank(init[j].0) {
          assert init[i] == t[i] && init[j] == t[j];
        }
      }
      SortOrders(rank, init);
      var s := SortDesc(init);
      forall e | e in s ensures rank(e.0) < rank(x.0) {
        assert e in multiset(init);
        var k :| 0 <= k < |init| && init[k] == e;
        assert t[k] == e;
      }
      InsertKeepsOrder(rank, s, x);
    }
  }

  /** The rank `most_common` breaks ties by: where a key is first seen in `ws`. */
  function SeenAt(ws: seq<string>): string -> int
  {
    w => if w in ws then FirstIndex(ws, w) else -1
  }

  /** The tally sorted by descending count, before truncation. */
  function Ranked(ws: seq<string>): (s: seq<Entry>)
  {
    SortDesc(Tally(ws))
  }

  lemma RankedCounts(ws: seq<string>)
    ensures forall i :: 0 <= i < |Ranked(ws)| ==>
              Ranked(ws)[i].0 in ws && Ranked(ws)[i].1 == multiset(ws)[Ranked(ws)[i].0]
  {
    var t, s := Tally(ws), Ranked(ws);
    TallyCounts(ws);
    TallyCovers(ws);
    forall i | 0 <= i < |s| ensures s[i].0 in ws && s[i].1 == multiset(ws)[s[i].0] {
      assert s[i] in multiset(t);
      var k :| 0 <= k < |t| && t[k] == s[i];
      assert HasKey(t, t[k].0);
    }
  }

  lemma RankedOrdered(ws: seq<string>)
    ensures Ordered(SeenAt(ws), Ranked(ws))
  {
    var t := Tally(ws);
    var rank := SeenAt(ws);
    TallyFirstSeen(ws);
    forall i, j | 0 <= i < j < |t| ensures rank(t[i].0) < rank(t[j].0) {
    }
    SortOrders(rank, t);
  }

  lemma RankedCovers(ws: seq<string>)
    ensures forall w :: w in ws ==> HasKey(Ranked(ws), w)
  {
    var t, s := Tally(ws), Ranked(ws);
    TallyCovers(ws);
    forall w | w in ws ensures HasKey(s, w) {
      var k :| 0 <= k < |t| && t[k].0 == w;
      assert t[k] in multiset(s);
      var p :| 0 <= p < |s| && s[p] == t[k];
    }
  }

  /** `Counter(ws).most_common(n)`. */
  function MostCommon(ws: seq<string>, n: nat): (r: seq<Entry>)
    ensures |r| <= n
  {
    Take(Ranked(ws), n)
  }

  /** Each entry is an element of `ws` with its exact number of occurrences, listed once. */
  lemma MostCommonCounts(ws: seq<string>, n: nat)
    ensures forall i :: 0 <= i < |MostCommon(ws, n)| ==>
              MostCommon(ws, n)[i].0 in ws &&
              MostCommon(ws, n)[i].1 == multiset(ws)[MostCommon(ws, n)[i].0] &&
              MostCommon(ws, n)[i].1 >= 1
    ensures DistinctKeys(MostCommon(ws, n))
  {
    var s, r := Ranked(ws), MostCommon(ws, n);
    RankedCounts(ws);
    RankedOrdered(ws);
    forall i, j | 0 <= i < j < |r| ensures r[i].0 != r[j].0 {
      assert r[i] == s[i] && r[j] == s[j];
      assert Before(SeenAt(ws), s[i], s[j]);
    }
  }

  /** Counts never increase along the result, and equal counts keep first-seen order. */
  lemma MostCommonOrder(ws: seq<string>, n: nat)
    ensures forall i, j :: 0 <= i < j < |MostCommon(ws, n)| ==>
              MostCommon(ws, n)[i].1 >= MostCommon(ws, n)[j].1
    ensures forall i, j ::
              (0 <= i < j < |MostCommon(ws, n)| && MostCommon(ws, n)[i].1 == MostCommon(ws, n)[j].1) ==>
              MostCommon(ws, n)[i].0 in ws && MostCommon(ws, n)[j].0 in ws &&
              FirstIndex(ws, MostCommon(ws, n)[i].0) < FirstIndex(ws, MostCommon(ws, n)[j].0)
  {
    var s, r := Ranked(ws), MostCommon(ws, n);
    RankedCounts(ws);
    RankedOrdered(ws);
    forall i, j | 0 <= i < j < |r| ensures Before(SeenAt(ws), r[i], r[j]) {
      assert r[i] == s[i] && r[j] == s[j];
    }
  }

  /**
   * Nothing that occurs in `ws` is left out unless `n` entries were returned, and then
   * every returned entry counts more often than the one left out, or as often and was
   * seen first: ties at the cut go to the earlier word.
   */
  lemma MostCommonComplete(ws: seq<string>, n: nat)
    ensures forall w :: w in ws && !HasKey(MostCommon(ws, n), w) ==>
              |MostCommon(ws, n)| == n &&
              forall i :: 0 <= i < n ==>
                MostCommon(ws, n)[i].1 > multiset(ws)[w] ||
                (MostCommon(ws, n)[i].1 == multiset(ws)[w] &&
                 MostCommon(ws, n)[i].0 in ws && FirstIndex(ws, MostCommon(ws, n)[i].0) < FirstIndex(ws, w))
  {
    var s, r := Ranked(ws), MostCommon(ws, n);
    RankedCounts(ws);
    RankedOrdered(ws);
    RankedCovers(ws);
    forall p | 0 <= p < |r| ensures HasKey(r, s[p].0) {
      assert r[p] == s[p];
    }
    forall w | w in ws && !HasKey(r, w)
      ensures |r| == n && forall i :: 0 <= i < n ==>
                r[i].1 > multiset(ws)[w] ||
                (r[i].1 == multiset(ws)[w] && r[i].0 in ws && FirstIndex(ws, r[i].0) < FirstIndex(ws, w))
    {
      var p :| 0 <= p < |s| && s[p].0 == w;
      forall i | 0 <= i < n
        ensures r[i].1 > multiset(ws)[w] ||
                (r[i].1 == multiset(ws)[w] && r[i].0 in ws && FirstIndex(ws, r[i].0) < FirstIndex(ws, w))
      {
        assert Before(SeenAt(ws), s[i], s[p]);
      }
    }
  }
}
