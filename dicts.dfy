/**
 * Python dictionaries as the add-on uses them: entries kept in insertion order,
 * which is the order iteration and templates see them in from Python 3.7 on,
 * each key at most once.
 * A dictionary is a sequence of (key, value) pairs.
 */
module Dicts {
  import opened Wrappers

  function Keys<V>(d: seq<(string, V)>): (ks: seq<string>)
    ensures |ks| == |d|
    ensures forall i :: 0 <= i < |d| ==> ks[i] == d[i].0
  {
    seq(|d|, i requires 0 <= i < |d| => d[i].0)
  }

  predicate Distinct(ks: seq<string>) {
    forall i, j :: 0 <= i < j < |ks| ==> ks[i] != ks[j]
  }

  /** `d.get(k)`. */
  function Find<V>(d: seq<(string, V)>, k: string): (r: Option<V>)
    ensures r.Some? <==> k in Keys(d)
    ensures r.Some? ==> (k, r.value) in d
  {
    if d == [] then None else if d[0].0 == k then Some(d[0].1) else Find(d[1..], k)
  }

  /** In a dictionary with distinct keys, every entry is what a lookup of its key finds. */
  lemma {:induction false} FindEntry<V>(d: seq<(string, V)>, i: nat)
    requires Distinct(Keys(d)) && i < |d|
    ensures Find(d, d[i].0) == Some(d[i].1)
  {
    if i > 0 {
      assert Keys(d)[0] != Keys(d)[i];
      assert Keys(d[1..]) == Keys(d)[1..];
      FindEntry(d[1..], i - 1);
    }
  }

  /** `d[k] = v`: an existing key keeps its place and gets the new value, a new key goes last. */
  function Put<V>(d: seq<(string, V)>, k: string, v: V): (updated: seq<(string, V)>) {
    if d == [] then [(k, v)]
    else if d[0].0 == k then [(k, v)] + d[1..]
    else [d[0]] + Put(d[1..], k, v)
  }

  lemma {:induction false} PutKeys<V>(d: seq<(string, V)>, k: string, v: V)
    ensures Keys(Put(d, k, v)) == if k in Keys(d) then Keys(d) else Keys(d) + [k]
  {
    if d != [] {
      assert Keys(d) == [d[0].0] + Keys(d[1..]);
      if d[0].0 != k {
        PutKeys(d[1..], k, v);
        assert Keys(Put(d, k, v)) == [d[0].0] + Keys(Put(d[1..], k, v));
      }
    }
  }

  lemma {:induction false} PutFind<V>(d: seq<(string, V)>, k: string, v: V, k': string)
    ensures Find(Put(d, k, v), k') == if k' == k then Some(v) else Find(d, k')
  {
    if d != [] && d[0].0 != k {
      PutFind(d[1..], k, v, k');
    }
  }

  /** Every entry after `d[k] = v` is the new one or an old one. */
  lemma {:induction false} PutEntries<V>(d: seq<(string, V)>, k: string, v: V)
    ensures forall e :: e in Put(d, k, v) ==> e == (k, v) || e in d
  {
    if d != [] && d[0].0 != k {
      PutEntries(d[1..], k, v);
      assert Put(d, k, v) == [d[0]] + Put(d[1..], k, v);
    }
  }

  /** The elements of `xs` in the order they first occur. */
  function Dedup(xs: seq<string>): (r: seq<string>)
    ensures Distinct(r)
    ensures forall x :: x in r <==> x in xs
  {
    if xs == [] then []
    else
      var init, x := xs[..|xs| - 1], xs[|xs| - 1];
      assert xs == init + [x];
      var r := Dedup(init);
      if x in r then r else r + [x]
  }

  /** `d[k].append(v)` on a `defaultdict(list)`. */
  function Append<V>(d: seq<(string, seq<V>)>, k: string, v: V): seq<(string, seq<V>)> {
    Put(d, k, Find(d, k).GetOr([]) + [v])
  }

  /**
   * The `defaultdict(list)` built by appending every pair of `ps` in turn,
   * converted to a plain dict.
   */
  function Group<V>(ps: seq<(string, V)>): (grouped: seq<(string, seq<V>)>) {
    if ps == [] then []
    else Append(Group(ps[..|ps| - 1]), ps[|ps| - 1].0, ps[|ps| - 1].1)
  }

  /** The values paired with `k` in `ps`, in order. */
  function ValuesOf<V>(ps: seq<(string, V)>, k: string): (vs: seq<V>) {
    if ps == [] then []
    else ValuesOf(ps[..|ps| - 1], k) + if ps[|ps| - 1].0 == k then [ps[|ps| - 1].1] else []
  }

  lemma {:induction false} KeysSnoc<V>(ps: seq<(string, V)>, p: (string, V))
    ensures Keys(ps + [p]) == Keys(ps) + [p.0]
  {
  }

  lemma {:induction false} ValuesOfEmpty<V>(ps: seq<(string, V)>, k: string)
    ensures ValuesOf(ps, k) == [] <==> k !in Keys(ps)
  {
    if ps != [] {
      var init := ps[..|ps| - 1];
      assert ps == init + [ps[|ps| - 1]];
      KeysSnoc(init, ps[|ps| - 1]);
      ValuesOfEmpty(init, k);
    }
  }

  /** Grouping keeps the keys in the order they first occur. */
  lemma {:induction false} GroupKeys<V>(ps: seq<(string, V)>)
    ensures Keys(Group(ps)) == Dedup(Keys(ps))
  {
    if ps != [] {
      var init, p := ps[..|ps| - 1], ps[|ps| - 1];
      assert ps == init + [p];
      GroupKeys(init);
      KeysSnoc(init, p);
      PutKeys(Group(init), p.0, Find(Group(init), p.0).GetOr([]) + [p.1]);
      var ks := Keys(ps);
      assert ks[..|ks| - 1] == Keys(init) && ks[|ks| - 1] == p.0;
      assert Dedup(ks) == if p.0 in Dedup(Keys(init)) then Dedup(Keys(init)) else Dedup(Keys(init)) + [p.0];
    }
  }

  /** Each key of a grouped dictionary holds exactly its values, in order. */
  lemma {:induction false} GroupFind<V>(ps: seq<(string, V)>, k: string)
    ensures Find(Group(ps), k) == if k in Keys(ps) then Some(ValuesOf(ps, k)) else None
  {
    if ps != [] {
      var init, p := ps[..|ps| - 1], ps[|ps| - 1];
      assert ps == init + [p];
      KeysSnoc(init, p);
      var g := Group(init);
      var before := Find(g, p.0).GetOr([]);
      assert Group(ps) == Put(g, p.0, before + [p.1]);
      PutFind(g, p.0, before + [p.1], k);
      GroupFind(init, k);
      if k == p.0 {
        ValuesOfEmpty(init, k);
        assert before == ValuesOf(init, k);
        assert ValuesOf(ps, k) == ValuesOf(init, k) + [p.1];
      } else {
        assert Find(Group(ps), k) == Find(g, k);
        assert ValuesOf(ps, k) == ValuesOf(init, k);
        assert k in Keys(ps) <==> k in Keys(init);
      }
    }
  }

  /** No key of a grouped dictionary maps to an empty list, and keys are distinct. */
  lemma GroupEntries<V>(ps: seq<(string, V)>)
    ensures Distinct(Keys(Group(ps)))
    ensures forall e :: e in Group(ps) ==> e.0 in Keys(ps) && e.1 == ValuesOf(ps, e.0) && e.1 != []
  {
    GroupKeys(ps);
    var g := Group(ps);
    forall e | e in g
      ensures e.0 in Keys(ps) && e.1 == ValuesOf(ps, e.0) && e.1 != []
    {
      var i :| 0 <= i < |g| && g[i] == e;
      FindEntry(g, i);
      GroupFind(ps, e.0);
      ValuesOfEmpty(ps, e.0);
    }
  }

  /** `v` is among the values of `k` exactly when the pair `(k, v)` occurs. */
  lemma {:induction false} ValuesOfMember<V>(ps: seq<(string, V)>, k: string, v: V)
    ensures v in ValuesOf(ps, k) <==> (k, v) in ps
  {
    if ps != [] {
      var init := ps[..|ps| - 1];
      assert ps == init + [ps[|ps| - 1]];
      ValuesOfMember(init, k, v);
    }
  }

  /** Deduplicating one more element adds it at the end unless it was already there. */
  lemma DedupStep(xs: seq<string>, i: nat)
    requires i < |xs|
    ensures Dedup(xs[..i + 1]) == if xs[i] in Dedup(xs[..i]) then Dedup(xs[..i]) else Dedup(xs[..i]) + [xs[i]]
  {
    assert xs[..i + 1][..i] == xs[..i];
  }

  /** Grouping one more pair appends its value under its key. */
  lemma GroupSnoc<V>(ps: seq<(string, V)>, p: (string, V))
    ensures Group(ps + [p]) == Append(Group(ps), p.0, p.1)
  {
    assert (ps + [p])[..|ps|] == ps;
  }
}
