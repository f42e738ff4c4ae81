/**
 * Python dictionaries (all of them keyed by strings here) as
 * insertion-ordered association lists. A key is looked up at its position;
 * assigning to a present key replaces its value where it stands, assigning
 * to a new key appends it; `update` and a dict comprehension assign their
 * pairs one after the other, so on a repeated key the last value wins and
 * the first position is kept.
 */
module Assoc {
  import opened Wrappers

  /** The keys, in order. */
  function Keys<V>(ps: seq<(string, V)>): (ks: seq<string>)
    ensures |ks| == |ps|
    ensures forall i :: 0 <= i < |ps| ==> ks[i] == ps[i].0
  {
    seq(|ps|, i requires 0 <= i < |ps| => ps[i].0)
  }

  /** The keys of two lists laid end to end are their keys laid end to end. */
  lemma KeysAppend<V>(ps: seq<(string, V)>, qs: seq<(string, V)>)
    ensures Keys(ps + qs) == Keys(ps) + Keys(qs)
  {
  }

  predicate Distinct(ks: seq<string>) {
    forall i, j :: 0 <= i < j < |ks| ==> ks[i] != ks[j]
  }

  /** What every Python dict is: no key twice. */
  predicate IsDict<V>(ps: seq<(string, V)>) {
    Distinct(Keys(ps))
  }

  /** The first position of `k` in `ks`. */
  function IndexOf(ks: seq<string>, k: string): (i: nat)
    requires k in ks
    ensures i < |ks| && ks[i] == k && k !in ks[..i]
  {
    if ks[0] == k then 0 else 1 + IndexOf(ks[1..], k)
  }

  /** A position holding `k` with no `k` before it is the first position of `k`. */
  lemma IndexOfUnique(ks: seq<string>, k: string, i: nat)
    requires i < |ks| && ks[i] == k && k !in ks[..i]
    ensures IndexOf(ks, k) == i
  {
  }

  /** `d.get(k)`: the value at the key's position, `None` for an absent key. */
  function Lookup<V>(ps: seq<(string, V)>, k: string): (r: Option<V>)
    ensures r.None? <==> k !in Keys(ps)
  {
    if k in Keys(ps) then Some(ps[IndexOf(Keys(ps), k)].1) else None
  }

  /**
   * `d[k] = v`. The key then maps to `v`; a present key stays where it
   * was, a new key goes last. (`PutOthers`: no other key changes.)
   */
  function Put<V>(ps: seq<(string, V)>, k: string, v: V): (r: seq<(string, V)>)
    ensures Lookup(r, k) == Some(v)
    ensures Keys(r) == if k in Keys(ps) then Keys(ps) else Keys(ps) + [k]
  {
    if k in Keys(ps) then
      var i := IndexOf(Keys(ps), k);
      var r := ps[i := (k, v)];
      assert Keys(r) == Keys(ps);
      r
    else
      var r := ps + [(k, v)];
      assert Keys(r) == Keys(ps) + [k];
      assert Keys(r)[..|ps|] == Keys(ps);
      IndexOfUnique(Keys(r), k, |ps|);
      r
  }

  /** Assigning to one key leaves the value of every other key as it was. */
  lemma PutOthers<V>(ps: seq<(string, V)>, k: string, v: V, k': string)
    requires k' != k
    ensures Lookup(Put(ps, k, v), k') == Lookup(ps, k')
  {
    var r := Put(ps, k, v);
    if k' in Keys(ps) {
      var j := IndexOf(Keys(ps), k');
      if k !in Keys(ps) {
        assert Keys(r)[..j] == Keys(ps)[..j];
        IndexOfUnique(Keys(r), k', j);
      }
    }
  }

  /** Every pair after an assignment is an old pair or the assigned one. */
  lemma PutPairsFrom<V>(ps: seq<(string, V)>, k: string, v: V, p: (string, V))
    requires p in Put(ps, k, v)
    ensures p in ps || p == (k, v)
  {
    var r := Put(ps, k, v);
    var j :| 0 <= j < |r| && r[j] == p;
    if k in Keys(ps) && j != IndexOf(Keys(ps), k) {
      assert r[j] == ps[j];
    }
  }

  /** In a dict, each pair is what its key looks up. */
  lemma LookupAt<V>(ps: seq<(string, V)>, i: nat)
    requires IsDict(ps) && i < |ps|
    ensures Lookup(ps, ps[i].0) == Some(ps[i].1)
  {
    IndexOfUnique(Keys(ps), ps[i].0, i);
  }

  /** Assigning to a new key appends the pair. */
  lemma PutFresh<V>(ps: seq<(string, V)>, k: string, v: V)
    requires k !in Keys(ps)
    ensures Put(ps, k, v) == ps + [(k, v)]
  {
  }

  /** Assignment keeps a dict a dict. */
  lemma PutIsDict<V>(ps: seq<(string, V)>, k: string, v: V)
    requires IsDict(ps)
    ensures IsDict(Put(ps, k, v))
  {
  }

  /** `d.pop(k)` once the value is taken: the key is gone, the other pairs stay in order. */
  function Remove<V>(ps: seq<(string, V)>, k: string): (r: seq<(string, V)>)
    ensures k !in Keys(r)
    ensures forall k' :: k' in Keys(r) ==> k' in Keys(ps)
  {
    if ps == [] then []
    else
      var rest := Remove(ps[1..], k);
      assert Keys(ps) == [ps[0].0] + Keys(ps[1..]);
      if ps[0].0 == k then rest
      else
        assert Keys([ps[0]] + rest) == [ps[0].0] + Keys(rest);
        [ps[0]] + rest
  }

  /** Looking up in a non-empty list: the head if it has the key, the tail otherwise. */
  lemma LookupCons<V>(ps: seq<(string, V)>, k: string)
    requires ps != []
    ensures Lookup(ps, k) == if ps[0].0 == k then Some(ps[0].1) else Lookup(ps[1..], k)
  {
    if ps[0].0 == k {
      IndexOfUnique(Keys(ps), k, 0);
    } else {
      LookupPastHead(ps, k);
    }
  }

  lemma LookupPastHead<V>(ps: seq<(string, V)>, k: string)
    requires ps != [] && ps[0].0 != k
    ensures Lookup(ps, k) == Lookup(ps[1..], k)
  {
    var ks, tail := Keys(ps), Keys(ps[1..]);
    assert ks == [ps[0].0] + tail;
    if k in tail {
      var j := IndexOf(tail, k);
      assert ks[..j + 1] == [ps[0].0] + tail[..j];
      IndexOfUnique(ks, k, j + 1);
    }
  }

  /** Removing one key leaves the value of every other key as it was. */
  lemma {:induction false} RemoveOthers<V>(ps: seq<(string, V)>, k: string, k': string)
    requires k' != k
    ensures Lookup(Remove(ps, k), k') == Lookup(ps, k')
  {
    if ps != [] {
      RemoveOthers(ps[1..], k, k');
      LookupCons(ps, k');
      var rest := Remove(ps[1..], k);
      if ps[0].0 != k {
        LookupCons([ps[0]] + rest, k');
        assert ([ps[0]] + rest)[1..] == rest;
      }
    }
  }

  /** Dropping the first pair of a dict leaves a dict without that key. */
  lemma TailIsDict<V>(ps: seq<(string, V)>)
    requires ps != [] && IsDict(ps)
    ensures IsDict(ps[1..]) && ps[0].0 !in Keys(ps[1..])
  {
    var ks, tail := Keys(ps), Keys(ps[1..]);
    assert forall j :: 0 <= j < |tail| ==> tail[j] == ks[j + 1];
  }

  /** Removal keeps a dict a dict. */
  lemma {:induction false} RemoveIsDict<V>(ps: seq<(string, V)>, k: string)
    requires IsDict(ps)
    ensures IsDict(Remove(ps, k))
  {
    if ps != [] {
      TailIsDict(ps);
      RemoveIsDict(ps[1..], k);
      var rest := Remove(ps[1..], k);
      if ps[0].0 != k {
        var r := [ps[0]] + rest;
        var ks, kr := Keys(r), Keys(rest);
        assert ks == [ps[0].0] + kr;
        assert ps[0].0 !in kr;
        forall i, j | 0 <= i < j < |r| ensures ks[i] != ks[j] {
          assert ks[j] == kr[j - 1];
          if i > 0 {
            assert ks[i] == kr[i - 1];
          }
        }
      }
    }
  }

  /** `d.update(qs)`: the pairs of `qs` assigned in order. */
  function UpdateWith<V>(ps: seq<(string, V)>, qs: seq<(string, V)>): (r: seq<(string, V)>)
  {
    if qs == [] then ps
    else
      var n := |qs| - 1;
      Put(UpdateWith(ps, qs[..n]), qs[n].0, qs[n].1)
  }

  /** Updating with a pair and then the rest is assigning the pair first. */
  lemma {:induction false} UpdateCons<V>(ps: seq<(string, V)>, q: (string, V), qs: seq<(string, V)>)
    ensures UpdateWith(ps, [q] + qs) == UpdateWith(Put(ps, q.0, q.1), qs)
    decreases |qs|
  {
    if qs == [] {
      assert UpdateWith(ps, [q]) == Put(UpdateWith(ps, []), q.0, q.1);
    } else {
      var n := |qs| - 1;
      assert ([q] + qs)[..n + 1] == [q] + qs[..n];
      UpdateCons(ps, q, qs[..n]);
    }
  }

  /** `{k: v for k, v in qs}`, or `dict(qs)`. */
  function FromPairs<V>(qs: seq<(string, V)>): (r: seq<(string, V)>)
  {
    UpdateWith([], qs)
  }

  /** A dict built from pairs with no key twice holds those pairs, in their order. */
  lemma FromPairsOfDict<V>(qs: seq<(string, V)>)
    requires IsDict(qs)
    ensures FromPairs(qs) == qs
  {
    assert [] + qs == qs;
    UpdateFreshKeys([], qs);
  }

  /** A dict built from pairs has their keys, each once, in order of first occurrence. */
  lemma FromPairsKeys<V>(qs: seq<(string, V)>)
    ensures Keys(FromPairs(qs)) == Dedup(Keys(qs))
    ensures |FromPairs(qs)| <= |qs|
  {
    var none: seq<(string, V)> := [];
    UpdateKeyOrder(none, qs);
    UpdateSize(none, qs);
    assert Keys(none) + Keys(qs) == Keys(qs);
  }

  /** The last position of `k` in `ks`, if any. */
  function LastIndexOf(ks: seq<string>, k: string): (r: Option<nat>)
    ensures r.None? <==> k !in ks
    ensures r.Some? ==> r.value < |ks| && ks[r.value] == k
    ensures r.Some? ==> forall j :: r.value < j < |ks| ==> ks[j] != k
  {
    if ks == [] then None
    else if ks[|ks| - 1] == k then Some(|ks| - 1)
    else LastIndexOf(ks[..|ks| - 1], k)
  }

  /** In a dict built from pairs, a key holds the value of its last pair. */
  lemma FromPairsLookup<V>(qs: seq<(string, V)>, k: string)
    ensures Lookup(FromPairs(qs), k) ==
      match LastIndexOf(Keys(qs), k)
      case None => None
      case Some(i) => Some(qs[i].1)
  {
    var empty: seq<(string, V)> := [];
    UpdateKeySet(empty, qs, k);
    match LastIndexOf(Keys(qs), k)
    case None =>
    case Some(i) => UpdateLastWins(empty, qs, i);
  }

  /** Updating with a dict: every key it has takes its value from it. */
  lemma UpdateFromDict<V>(ps: seq<(string, V)>, qs: seq<(string, V)>, k: string)
    requires IsDict(qs) && k in Keys(qs)
    ensures Lookup(UpdateWith(ps, qs), k) == Lookup(qs, k)
  {
    var i := IndexOf(Keys(qs), k);
    UpdateLastWins(ps, qs, i);
    LookupAt(qs, i);
  }

  /** The keys of `ks` with every repeated occurrence dropped: each key at its first position. */
  function Dedup(ks: seq<string>): (r: seq<string>) {
    if ks == [] then []
    else
      var n := |ks| - 1;
      if ks[n] in ks[..n] then Dedup(ks[..n]) else Dedup(ks[..n]) + [ks[n]]
  }

  /** An update keeps a dict a dict. */
  lemma {:induction false} UpdateIsDict<V>(ps: seq<(string, V)>, qs: seq<(string, V)>)
    requires IsDict(ps)
    ensures IsDict(UpdateWith(ps, qs))
  {
    if qs != [] {
      var n := |qs| - 1;
      UpdateIsDict(ps, qs[..n]);
      PutIsDict(UpdateWith(ps, qs[..n]), qs[n].0, qs[n].1);
    }
  }

  /** Every pair after an update is an old pair or one of `qs`. */
  lemma {:induction false} UpdatePairsFrom<V>(ps: seq<(string, V)>, qs: seq<(string, V)>, p: (string, V))
    requires p in UpdateWith(ps, qs)
    ensures p in ps || p in qs
  {
    if qs != [] {
      var n := |qs| - 1;
      PutPairsFrom(UpdateWith(ps, qs[..n]), qs[n].0, qs[n].1, p);
      if p != qs[n] {
        UpdatePairsFrom(ps, qs[..n], p);
      }
    }
  }

  /** After an update, a key written by `qs` holds the value of its last pair in `qs`. */
  lemma {:induction false} UpdateLastWins<V>(ps: seq<(string, V)>, qs: seq<(string, V)>, i: nat)
    requires i < |qs|
    requires forall j :: i < j < |qs| ==> qs[j].0 != qs[i].0
    ensures Lookup(UpdateWith(ps, qs), qs[i].0) == Some(qs[i].1)
    decreases |qs|, 1
  {
    if i < |qs| - 1 {
      UpdateEarlierWins(ps, qs, i);
    } else {
      UpdateSnocLast(ps, qs);
    }
  }

  /** `UpdateLastWins` for a pair before the last: the last pair writes another key. */
  lemma {:induction false} UpdateEarlierWins<V>(ps: seq<(string, V)>, qs: seq<(string, V)>, i: nat)
    requires i < |qs| - 1
    requires forall j :: i < j < |qs| ==> qs[j].0 != qs[i].0
    ensures Lookup(UpdateWith(ps, qs), qs[i].0) == Some(qs[i].1)
    decreases |qs|, 0
  {
    var n := |qs| - 1;
    var front := qs[..n];
    assert front[i] == qs[i];
    assert forall j :: i < j < |front| ==> front[j] == qs[j];
    UpdateLastWins(ps, front, i);
    UpdateSnocOthers(ps, qs, qs[i].0);
  }

  /** The last pair of an update is in the result. */
  lemma UpdateSnocLast<V>(ps: seq<(string, V)>, qs: seq<(string, V)>)
    requires qs != []
    ensures Lookup(UpdateWith(ps, qs), qs[|qs| - 1].0) == Some(qs[|qs| - 1].1)
  {
  }

  /** The last pair of an update leaves every other key as the earlier pairs left it. */
  lemma UpdateSnocOthers<V>(ps: seq<(string, V)>, qs: seq<(string, V)>, k: string)
    requires qs != [] && qs[|qs| - 1].0 != k
    ensures Lookup(UpdateWith(ps, qs), k) == Lookup(UpdateWith(ps, qs[..|qs| - 1]), k)
  {
    var n := |qs| - 1;
    PutOthers(UpdateWith(ps, qs[..n]), qs[n].0, qs[n].1, k);
  }

  /** After an update, a key that `qs` does not write holds what it held before. */
  lemma {:induction false} UpdateKeepsOthers<V>(ps: seq<(string, V)>, qs: seq<(string, V)>, k: string)
    requires k !in Keys(qs)
    ensures Lookup(UpdateWith(ps, qs), k) == Lookup(ps, k)
  {
    if qs != [] {
      var n := |qs| - 1;
      assert Keys(qs[..n]) == Keys(qs)[..n];
      UpdateKeepsOthers(ps, qs[..n], k);
      PutOthers(UpdateWith(ps, qs[..n]), qs[n].0, qs[n].1, k);
    }
  }

  /** The keys after an update are those before and those `qs` writes, and no others. */
  lemma {:induction false} UpdateKeySet<V>(ps: seq<(string, V)>, qs: seq<(string, V)>, k: string)
    ensures k in Keys(UpdateWith(ps, qs)) <==> k in Keys(ps) || k in Keys(qs)
  {
    if qs != [] {
      var n := |qs| - 1;
      assert Keys(qs) == Keys(qs[..n]) + [qs[n].0];
      UpdateKeySet(ps, qs[..n], k);
    }
  }

  /**
   * The key order after an update: the old keys in their places, then each
   * new key at the place of its first pair in `qs`.
   */
  lemma {:induction false} UpdateKeyOrder<V>(ps: seq<(string, V)>, qs: seq<(string, V)>)
    requires IsDict(ps)
    ensures Keys(UpdateWith(ps, qs)) == Dedup(Keys(ps) + Keys(qs))
  {
    if qs == [] {
      assert Keys(ps) + Keys(qs) == Keys(ps);
      DedupDistinct(Keys(ps));
    } else {
      var n := |qs| - 1;
      var k := qs[n].0;
      var prev := UpdateWith(ps, qs[..n]);
      var all, front := Keys(ps) + Keys(qs), Keys(ps) + Keys(qs[..n]);
      assert Keys(qs) == Keys(qs[..n]) + [k];
      assert all == front + [k];
      assert all[..|all| - 1] == front;
      UpdateKeyOrder(ps, qs[..n]);
      UpdateKeySet(ps, qs[..n], k);
      assert k in front <==> k in Keys(prev);
      assert Dedup(all) == if k in front then Dedup(front) else Dedup(front) + [k];
    }
  }

  lemma {:induction false} DedupDistinct(ks: seq<string>)
    requires Distinct(ks)
    ensures Dedup(ks) == ks
  {
    if ks != [] {
      var n := |ks| - 1;
      DedupDistinct(ks[..n]);
    }
  }

  /** An update never leaves more keys than the two sides have together. */
  lemma {:induction false} UpdateSize<V>(ps: seq<(string, V)>, qs: seq<(string, V)>)
    ensures |UpdateWith(ps, qs)| <= |ps| + |qs|
  {
    if qs != [] {
      UpdateSize(ps, qs[..|qs| - 1]);
    }
  }

  /** Writing keys that are all new and all different just appends the pairs. */
  lemma {:induction false} UpdateFreshKeys<V>(ps: seq<(string, V)>, qs: seq<(string, V)>)
    requires IsDict(ps + qs)
    ensures UpdateWith(ps, qs) == ps + qs
  {
    if qs != [] {
      FreshLast(ps, qs);
      UpdateFreshKeys(ps, qs[..|qs| - 1]);
      UpdateFreshStep(ps, qs);
    }
  }

  /** One step of `UpdateFreshKeys`: a fresh last pair is appended. */
  lemma UpdateFreshStep<V>(ps: seq<(string, V)>, qs: seq<(string, V)>)
    requires qs != []
    requires UpdateWith(ps, qs[..|qs| - 1]) == ps + qs[..|qs| - 1]
    requires qs[|qs| - 1].0 !in Keys(ps + qs[..|qs| - 1])
    ensures UpdateWith(ps, qs) == ps + qs
  {
    var n := |qs| - 1;
    var prev := ps + qs[..n];
    PutFresh(prev, qs[n].0, qs[n].1);
    SnocSplit(ps, qs);
  }

  lemma SnocSplit<T>(a: seq<T>, b: seq<T>)
    requires b != []
    ensures (a + b[..|b| - 1]) + [b[|b| - 1]] == a + b
  {
    assert b[..|b| - 1] + [b[|b| - 1]] == b;
  }

  /** Without its last pair, a dict is still a dict, and lacks that pair's key. */
  lemma FreshLast<V>(ps: seq<(string, V)>, qs: seq<(string, V)>)
    requires IsDict(ps + qs) && qs != []
    ensures IsDict(ps + qs[..|qs| - 1])
    ensures qs[|qs| - 1].0 !in Keys(ps + qs[..|qs| - 1])
  {
    var n := |qs| - 1;
    var prev := ps + qs[..n];
    var all := Keys(ps + qs);
    assert (ps + qs)[..|ps| + n] == prev;
    assert Keys(prev) == all[..|ps| + n];
    assert qs[n].0 == all[|ps| + n];
  }

  /** Updating with one pair is assigning it. */
  lemma UpdateOne<V>(ps: seq<(string, V)>, p: (string, V))
    ensures UpdateWith(ps, [p]) == Put(ps, p.0, p.1)
  {
    assert [p][..0] == [];
  }

  /** Updating with two pairs is assigning them in order. */
  lemma UpdateTwo<V>(ps: seq<(string, V)>, p: (string, V), q: (string, V))
    ensures UpdateWith(ps, [p, q]) == Put(Put(ps, p.0, p.1), q.0, q.1)
  {
    assert [p, q][..1] == [p];
    UpdateOne(ps, p);
  }

  /** Updating with `a + b` is updating with `a`, then with `b`. */
  lemma {:induction false} UpdateAppend<V>(ps: seq<(string, V)>, a: seq<(string, V)>, b: seq<(string, V)>)
    ensures UpdateWith(ps, a + b) == UpdateWith(UpdateWith(ps, a), b)
    decreases |b|
  {
    if b == [] {
      assert a + b == a;
    } else {
      var n := |b| - 1;
      var ab := a + b;
      SnocSplit(a, b);
      assert ab[..|ab| - 1] == a + b[..n] && ab[|ab| - 1] == b[n];
      UpdateAppend(ps, a, b[..n]);
    }
  }
}
