/** The per-submitter counters kept under `users` in stats.json. A
    JavaScript object iterates its (non-numeric) keys in insertion order, so
    the object is modelled as an association list: one `Entry` per key, in
    the order the keys were first written. */
module Tally {

  datatype Entry = Entry(user: string, count: nat)

  /** The submitters that have a counter. */
  function Keys(us: seq<Entry>): set<string>
  {
    if |us| == 0 then {} else {us[0].user} + Keys(us[1..])
  }

  /** An object has each key at most once. */
  predicate DistinctKeys(us: seq<Entry>)
  {
    |us| == 0 || (us[0].user !in Keys(us[1..]) && DistinctKeys(us[1..]))
  }

  /** `users[u] || 0`: the counter of `u`, zero when `u` has none. */
  function Count(us: seq<Entry>, u: string): (c: nat)
    ensures u !in Keys(us) ==> c == 0
  {
    if |us| == 0 then 0
    else if us[0].user == u then us[0].count
    else Count(us[1..], u)
  }

  /** The sum of all counters. */
  function Sum(us: seq<Entry>): nat
  {
    if |us| == 0 then 0 else us[0].count + Sum(us[1..])
  }

  /** `users[u] = (users[u] || 0) + 1`: an existing key keeps its place and
      gains one; a new key is appended with counter 1. */
  function Bump(us: seq<Entry>, u: string): (r: seq<Entry>)
    ensures Count(r, u) == Count(us, u) + 1
    ensures forall v :: v != u ==> Count(r, v) == Count(us, v)
    ensures Keys(r) == Keys(us) + {u}
  {
    if |us| == 0 then [Entry(u, 1)]
    else if us[0].user == u then [Entry(u, us[0].count + 1)] + us[1..]
    else
      var rest := Bump(us[1..], u);
      assert ([us[0]] + rest)[1..] == rest;
      [us[0]] + rest
  }

  /** A bump adds exactly one to the total. */
  lemma {:induction false} BumpSum(us: seq<Entry>, u: string)
    ensures Sum(Bump(us, u)) == Sum(us) + 1
  {
    if |us| > 0 && us[0].user != u {
      BumpSum(us[1..], u);
    }
  }

  /** A bump of an existing key keeps every key in its place; a new key is
      appended at the end, behind all existing ones. */
  lemma {:induction false} BumpOrder(us: seq<Entry>, u: string)
    ensures u in Keys(us) ==> |Bump(us, u)| == |us| && forall i :: 0 <= i < |us| ==> Bump(us, u)[i].user == us[i].user
    ensures u !in Keys(us) ==> Bump(us, u) == us + [Entry(u, 1)]
  {
    if |us| > 0 && us[0].user != u {
      BumpOrder(us[1..], u);
      var r := Bump(us, u);
      assert r[1..] == Bump(us[1..], u);
      assert us == [us[0]] + us[1..];
    }
  }

  /** A bump keeps the keys distinct. */
  lemma {:induction false} BumpDistinct(us: seq<Entry>, u: string)
    requires DistinctKeys(us)
    ensures DistinctKeys(Bump(us, u))
  {
    var r := Bump(us, u);
    if |us| > 0 {
      if us[0].user == u {
        assert r[1..] == us[1..];
      } else {
        BumpDistinct(us[1..], u);
        assert r[1..] == Bump(us[1..], u);
      }
    }
  }
}
