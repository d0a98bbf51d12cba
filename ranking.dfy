/** The order of the `/stats` leaderboard: `Object.entries(users).sort((a, b)
    => b[1] - a[1])`. The comparator puts higher counts first, and
    `Array.prototype.sort` is stable (ECMAScript 2019, section 22.1.3.27), so
    entries with equal counts keep their insertion order. `Ranked` is one
    such sort; `RankedUnique` shows that every stable sort by this
    comparator gives the same sequence. */
module Ranking {
  import opened Tally

  /** No entry has a higher count than the one before it. */
  predicate NonIncreasing(s: seq<Entry>)
  {
    forall i, j :: 0 <= i < j < |s| ==> s[i].count >= s[j].count
  }

  /** The entries whose count is `c`, in their order in `s`. */
  function WithCount(s: seq<Entry>, c: nat): seq<Entry>
  {
    if |s| == 0 then []
    else (if s[0].count == c then [s[0]] else []) + WithCount(s[1..], c)
  }

  /** Puts `e` in front of the first entry whose count is not higher. */
  function Insert(e: Entry, s: seq<Entry>): seq<Entry>
  {
    if |s| == 0 || s[0].count <= e.count then [e] + s
    else [s[0]] + Insert(e, s[1..])
  }

  lemma {:induction false} InsertPermutes(e: Entry, s: seq<Entry>)
    ensures multiset(Insert(e, s)) == multiset([e] + s)
  {
    if |s| > 0 && s[0].count > e.count {
      InsertPermutes(e, s[1..]);
      assert s == [s[0]] + s[1..];
    }
  }

  /** No entry of `s` has a count above `b`. */
  predicate AtMost(s: seq<Entry>, b: nat)
  {
    forall i :: 0 <= i < |s| ==> s[i].count <= b
  }

  lemma {:induction false} InsertAtMost(e: Entry, s: seq<Entry>, b: nat)
    requires AtMost(s, b) && e.count <= b
    ensures AtMost(Insert(e, s), b)
  {
    if |s| > 0 && s[0].count > e.count {
      InsertAtMost(e, s[1..], b);
      var r := Insert(e, s);
      assert r[1..] == Insert(e, s[1..]);
      assert forall i :: 1 <= i < |r| ==> r[i] == r[1..][i - 1];
    }
  }

  lemma {:induction false} InsertSorted(e: Entry, s: seq<Entry>)
    requires NonIncreasing(s)
    ensures NonIncreasing(Insert(e, s))
  {
    if |s| > 0 && s[0].count > e.count {
      var rest := Insert(e, s[1..]);
      InsertSorted(e, s[1..]);
      InsertAtMost(e, s[1..], s[0].count);
      var r := [s[0]] + rest;
      assert forall i :: 1 <= i < |r| ==> r[i] == rest[i - 1];
    }
  }

  lemma WithCountCons(x: Entry, s: seq<Entry>, c: nat)
    ensures WithCount([x] + s, c) == (if x.count == c then [x] else []) + WithCount(s, c)
  {
    assert ([x] + s)[1..] == s;
  }

  /** `e` lands in front of every entry with the same count. */
  lemma {:induction false} InsertStable(e: Entry, s: seq<Entry>, c: nat)
    ensures WithCount(Insert(e, s), c) == (if e.count == c then [e] else []) + WithCount(s, c)
  {
    if |s| == 0 || s[0].count <= e.count {
      WithCountCons(e, s, c);
    } else {
      var rest := Insert(e, s[1..]);
      assert Insert(e, s) == [s[0]] + rest;
      WithCountCons(s[0], rest, c);
      WithCountCons(s[0], s[1..], c);
      assert s == [s[0]] + s[1..];
      InsertStable(e, s[1..], c);
      if s[0].count == c {
        assert e.count != c;
      }
    }
  }

  /** The entries sorted by count, highest first, ties in their original
      order. */
  function Ranked(s: seq<Entry>): (r: seq<Entry>)
    ensures multiset(r) == multiset(s)
    ensures NonIncreasing(r)
    ensures forall c :: WithCount(r, c) == WithCount(s, c)
  {
    if |s| == 0 then []
    else
      var rest := Ranked(s[1..]);
      InsertPermutes(s[0], rest);
      InsertSorted(s[0], rest);
      assert forall c :: WithCount(Insert(s[0], rest), c) == WithCount(s, c) by {
        forall c ensures WithCount(Insert(s[0], rest), c) == WithCount(s, c) {
          InsertStable(s[0], rest, c);
        }
      }
      assert s == [s[0]] + s[1..];
      Insert(s[0], rest)
  }

  /** A count that occurs in `s` is no higher than a bound on all of `s`. */
  lemma {:induction false} WithCountAtMost(s: seq<Entry>, b: nat, c: nat)
    requires AtMost(s, b) && WithCount(s, c) != []
    ensures c <= b
  {
    if s[0].count != c {
      assert AtMost(s[1..], b) by {
        assert forall i :: 0 <= i < |s[1..]| ==> s[1..][i] == s[i + 1];
      }
      WithCountAtMost(s[1..], b, c);
    }
  }

  /** Two non-increasing sequences with the same entries of each count, in
      the same order, are equal: a stable sort by count is determined. */
  lemma {:induction false} StableSortDetermined(a: seq<Entry>, b: seq<Entry>)
    requires NonIncreasing(a) && NonIncreasing(b)
    requires forall c :: WithCount(a, c) == WithCount(b, c)
    ensures a == b
  {
    if |a| == 0 {
      assert |b| == 0 || WithCount(b, b[0].count) != [];
    } else {
      var m := a[0].count;
      assert WithCount(a, m)[0] == a[0];
      assert |b| > 0;
      var n := b[0].count;
      assert WithCount(b, n)[0] == b[0];
      assert AtMost(a, m);
      assert AtMost(b, n);
      WithCountAtMost(a, m, n);
      WithCountAtMost(b, n, m);
      assert a[0] == b[0];
      assert NonIncreasing(a[1..]) && NonIncreasing(b[1..]) by {
        assert forall i :: 0 <= i < |a[1..]| ==> a[1..][i] == a[i + 1];
        assert forall i :: 0 <= i < |b[1..]| ==> b[1..][i] == b[i + 1];
      }
      forall c ensures WithCount(a[1..], c) == WithCount(b[1..], c) {
        var h := if a[0].count == c then [a[0]] else [];
        assert WithCount(a, c) == h + WithCount(a[1..], c);
        assert WithCount(b, c) == h + WithCount(b[1..], c);
        assert WithCount(a[1..], c) == WithCount(a, c)[|h|..];
      }
      StableSortDetermined(a[1..], b[1..]);
      assert a == [a[0]] + a[1..] && b == [b[0]] + b[1..];
    }
  }

  /** Any result of a stable sort by descending count is `Ranked(s)`. */
  lemma RankedUnique(s: seq<Entry>, r: seq<Entry>)
    requires NonIncreasing(r)
    requires forall c :: WithCount(r, c) == WithCount(s, c)
    ensures r == Ranked(s)
  {
    StableSortDetermined(r, Ranked(s));
  }

  lemma {:induction false} InsertTally(e: Entry, s: seq<Entry>)
    requires DistinctKeys(s) && e.user !in Keys(s)
    ensures Keys(Insert(e, s)) == {e.user} + Keys(s)
    ensures DistinctKeys(Insert(e, s))
    ensures forall u :: Count(Insert(e, s), u) == if u == e.user then e.count else Count(s, u)
  {
    if |s| > 0 && s[0].count > e.count {
      var rest := Insert(e, s[1..]);
      InsertTally(e, s[1..]);
      assert Insert(e, s)[1..] == rest;
    }
  }

  /** Ranking a tally with distinct keys lists every user exactly once,
      with the same counter. */
  lemma {:induction false} RankedTally(s: seq<Entry>)
    requires DistinctKeys(s)
    ensures Keys(Ranked(s)) == Keys(s)
    ensures DistinctKeys(Ranked(s))
    ensures forall u :: Count(Ranked(s), u) == Count(s, u)
  {
    if |s| > 0 {
      RankedTally(s[1..]);
      InsertTally(s[0], Ranked(s[1..]));
    }
  }

  /** Counters a = 3, b = 5, c = 3 rank as b, a, c: the tie between a and c
      keeps their insertion order. */
  lemma RankedTieExample()
    ensures Ranked([Entry("a", 3), Entry("b", 5), Entry("c", 3)])
         == [Entry("b", 5), Entry("a", 3), Entry("c", 3)]
  {
  }
}
