/** A Python `dict` keyed by file stem, as an association list in insertion
    order, and `OrderedDict(sorted(d.items()))`. */
module Dicts {
  import opened Wrappers
  import opened StringOrder

  type Items<V> = seq<(string, V)>

  function Keys<V>(d: Items<V>): (ks: seq<string>)
    ensures |ks| == |d|
    ensures forall i :: 0 <= i < |d| ==> ks[i] == d[i].0
  {
    if d == [] then [] else [d[0].0] + Keys(d[1..])
  }

  /** A dictionary never holds the same key twice. */
  predicate DistinctKeys<V>(d: Items<V>) {
    forall i, j :: 0 <= i < j < |d| ==> d[i].0 != d[j].0
  }

  /** Keys strictly ascending in Python's string order. */
  predicate Ascending<V>(d: Items<V>) {
    forall i, j :: 0 <= i < j < |d| ==> Below(d[i].0, d[j].0)
  }

  /** The value stored under `k`, if any. */
  function Lookup<V>(d: Items<V>, k: string): (r: Option<V>)
    ensures r.Some? <==> k in Keys(d)
    ensures r.Some? ==> (k, r.value) in d
  {
    if d == [] then None
    else if d[0].0 == k then Some(d[0].1)
    else Lookup(d[1..], k)
  }

  /** `d[k] = v`: an existing key keeps its position and gets the new value;
      a new key is appended at the end. */
  function Assign<V>(d: Items<V>, k: string, v: V): (r: Items<V>)
    requires DistinctKeys(d)
    ensures Keys(r) == if k in Keys(d) then Keys(d) else Keys(d) + [k]
    ensures DistinctKeys(r)
  {
    if d == [] then [(k, v)]
    else if d[0].0 == k then
      assert Keys(d) == [k] + Keys(d[1..]);
      DistinctCons((k, v), d[1..]);
      DistinctCons(d[0], d[1..]);
      [(k, v)] + d[1..]
    else
      var t := Assign(d[1..], k, v);
      assert Keys([d[0]] + t) == [d[0].0] + Keys(t);
      assert Keys(d) == [d[0].0] + Keys(d[1..]);
      assert d[0].0 !in Keys(d[1..]);
      DistinctCons(d[0], t);
      [d[0]] + t
  }

  /** After `d[k] = v`, `k` maps to `v` and every other key keeps its value. */
  lemma {:induction false} AssignLookup<V>(d: Items<V>, k: string, v: V, k': string)
    requires DistinctKeys(d)
    ensures Lookup(Assign(d, k, v), k') == if k' == k then Some(v) else Lookup(d, k')
  {
    if d != [] && d[0].0 != k {
      AssignLookup(d[1..], k, v, k');
    }
  }

  /** A list's keys are distinct iff its head's key is new to a tail whose
      keys are distinct. */
  lemma DistinctCons<V>(h: (string, V), t: Items<V>)
    ensures DistinctKeys([h] + t) <==> h.0 !in Keys(t) && DistinctKeys(t)
  {
    var s := [h] + t;
    if DistinctKeys(s) {
      forall i, j | 0 <= i < j < |t| ensures t[i].0 != t[j].0 {
        assert s[i + 1] == t[i] && s[j + 1] == t[j];
      }
      forall j | 0 <= j < |t| ensures Keys(t)[j] != h.0 {
        assert s[0] == h && s[j + 1] == t[j];
      }
    }
  }

  /** Insert one item into a key-ascending list whose keys differ from its key. */
  function Insert<V>(x: (string, V), s: Items<V>): (r: Items<V>)
    requires Ascending(s)
    requires forall i :: 0 <= i < |s| ==> s[i].0 != x.0
    ensures Ascending(r)
    ensures multiset(r) == multiset(s) + multiset{x}
  {
    if s == [] then [x]
    else if Below(x.0, s[0].0) then
      InsertFront(x, s);
      [x] + s
    else
      BelowTotal(x.0, s[0].0);
      var t := Insert(x, s[1..]);
      assert s == [s[0]] + s[1..];
      AboveHead(s[0], x, s[1..], t);
      [s[0]] + t
  }

  lemma InsertFront<V>(x: (string, V), s: Items<V>)
    requires Ascending(s) && |s| > 0 && Below(x.0, s[0].0)
    ensures Ascending([x] + s)
  {
    forall j | 0 < j < |s| ensures Below(x.0, s[j].0) {
      BelowTransitive(x.0, s[0].0, s[j].0);
    }
  }

  lemma AboveHead<V>(h: (string, V), x: (string, V), rest: Items<V>, t: Items<V>)
    requires Ascending([h] + rest) && Below(h.0, x.0) && Ascending(t)
    requires multiset(t) == multiset(rest) + multiset{x}
    ensures Ascending([h] + t)
  {
    forall j | 0 <= j < |t| ensures Below(h.0, t[j].0) {
      assert t[j] in multiset(t);
      if t[j] != x {
        assert t[j] in multiset(rest);
        var m :| 0 <= m < |rest| && rest[m] == t[j];
        assert ([h] + rest)[0] == h && ([h] + rest)[m + 1] == t[j];
      }
    }
  }

  /** `sorted(d.items())`: since keys are distinct, only keys are compared. */
  function SortItems<V>(d: Items<V>): (r: Items<V>)
    requires DistinctKeys(d)
    ensures Ascending(r)
    ensures multiset(r) == multiset(d)
  {
    if d == [] then []
    else
      var h, rest := d[0], d[1..];
      assert d == [h] + rest;
      DistinctCons(h, rest);
      var t := SortItems(rest);
      forall i | 0 <= i < |t| ensures t[i].0 != h.0 {
        assert t[i] in multiset(rest);
        var j :| 0 <= j < |rest| && rest[j] == t[i];
        assert Keys(rest)[j] == t[i].0;
      }
      Insert(h, t)
  }

  /** Sorting keeps exactly the dictionary's key/value pairs, each once,
      so every lookup answers as before. */
  lemma {:induction false} SortItemsSameEntries<V>(d: Items<V>)
    requires DistinctKeys(d)
    ensures |SortItems(d)| == |d|
    ensures forall p :: p in SortItems(d) <==> p in d
    ensures DistinctKeys(SortItems(d))
    ensures forall k :: Lookup(SortItems(d), k) == Lookup(d, k)
  {
    var r := SortItems(d);
    assert |r| == |multiset(r)| == |multiset(d)| == |d|;
    forall p ensures p in r <==> p in d {
      assert p in r <==> p in multiset(r);
      assert p in d <==> p in multiset(d);
    }
    forall i, j | 0 <= i < j < |r| ensures r[i].0 != r[j].0 {
      BelowIrreflexive(r[i].0);
    }
    forall k ensures Lookup(r, k) == Lookup(d, k) {
      LookupByMembership(r, d, k);
    }
  }

  /** Two duplicate-free lists with the same items answer lookups alike. */
  lemma LookupByMembership<V>(r: Items<V>, d: Items<V>, k: string)
    requires DistinctKeys(r) && DistinctKeys(d)
    requires forall p :: p in r <==> p in d
    ensures Lookup(r, k) == Lookup(d, k)
  {
  }
}
