/** Dictionaries built by successive assignment `d[k] = v`: a later
    assignment to the same key overwrites an earlier one. */
module Collections {
  import opened Wrappers

  /** The dictionary obtained by performing, in order, the assignment held
      by each `Some` entry; `None` entries are skipped. */
  function Assoc<K, V>(entries: seq<Option<(K, V)>>): map<K, V>
    decreases |entries|
  {
    if entries == [] then map[]
    else
      var m := Assoc(entries[..|entries| - 1]);
      match entries[|entries| - 1]
      case None => m
      case Some(kv) => m[kv.0 := kv.1]
  }

  /** Appending one entry performs its assignment last. */
  lemma AssocSnoc<K, V>(entries: seq<Option<(K, V)>>, e: Option<(K, V)>)
    ensures e.None? ==> Assoc(entries + [e]) == Assoc(entries)
    ensures e.Some? ==> Assoc(entries + [e]) == Assoc(entries)[e.value.0 := e.value.1]
  {
    assert (entries + [e])[..|entries|] == entries;
  }

  /** The entries `f` makes of the elements of `xs`. */
  function EntriesOf<A, K, V>(f: A -> Option<(K, V)>, xs: seq<A>): (r: seq<Option<(K, V)>>)
    ensures |r| == |xs|
    ensures forall i :: 0 <= i < |xs| ==> r[i] == f(xs[i])
  {
    seq(|xs|, i requires 0 <= i < |xs| => f(xs[i]))
  }

  lemma EntriesOfSnoc<A, K, V>(f: A -> Option<(K, V)>, xs: seq<A>, i: int)
    requires 0 <= i < |xs|
    ensures EntriesOf(f, xs[..i + 1]) == EntriesOf(f, xs[..i]) + [f(xs[i])]
  {
  }

  /** Entry `i` assigns key `k`. */
  ghost predicate Assigns<K, V>(entries: seq<Option<(K, V)>>, i: int, k: K) {
    0 <= i < |entries| && entries[i].Some? && entries[i].value.0 == k
  }

  /** A key is present exactly when some entry assigns it. */
  lemma {:induction false} AssocHasKey<K, V>(entries: seq<Option<(K, V)>>, k: K)
    ensures k in Assoc(entries) <==> exists i :: Assigns(entries, i, k)
    decreases |entries|
  {
    if entries != [] {
      var n := |entries| - 1;
      var init := entries[..n];
      AssocHasKey(init, k);
      if entries[n].Some? && entries[n].value.0 == k {
        assert Assigns(entries, n, k);
      }
      if exists i :: Assigns(init, i, k) {
        var i :| Assigns(init, i, k);
        assert Assigns(entries, i, k);
      }
      if exists i :: Assigns(entries, i, k) {
        var i :| Assigns(entries, i, k);
        if i < n {
          assert Assigns(init, i, k);
        } else {
          assert entries[n] == Some((k, entries[n].value.1));
        }
      }
    }
  }

  /** Every value of the dictionary is the value of some entry for its key. */
  lemma {:induction false} AssocValueFrom<K, V>(entries: seq<Option<(K, V)>>, k: K)
    requires k in Assoc(entries)
    ensures exists i :: 0 <= i < |entries| && entries[i] == Some((k, Assoc(entries)[k]))
    decreases |entries|
  {
    var n := |entries| - 1;
    var init := entries[..n];
    if entries[n].Some? && entries[n].value.0 == k {
      assert entries[n] == Some((k, Assoc(entries)[k]));
    } else {
      AssocValueFrom(init, k);
      var i :| 0 <= i < |init| && init[i] == Some((k, Assoc(init)[k]));
      assert entries[i] == Some((k, Assoc(entries)[k]));
    }
  }

  /** The value stored under a key is the one of the last entry assigning it. */
  lemma {:induction false} AssocLastWins<K, V>(entries: seq<Option<(K, V)>>, i: int)
    requires 0 <= i < |entries| && entries[i].Some?
    requires forall j :: i < j < |entries| ==> !Assigns(entries, j, entries[i].value.0)
    ensures entries[i].value.0 in Assoc(entries)
    ensures Assoc(entries)[entries[i].value.0] == entries[i].value.1
    decreases |entries|
  {
    var n := |entries| - 1;
    if i < n {
      var init := entries[..n];
      forall j | i < j < |init| ensures !Assigns(init, j, entries[i].value.0) {
        assert !Assigns(entries, j, entries[i].value.0);
      }
      AssocLastWins(init, i);
      assert !Assigns(entries, n, entries[i].value.0);
    }
  }

  /** Overriding by a dictionary and then assigning one key is overriding by
      the dictionary with that assignment. */
  lemma MergeUpdate<K, V>(a: map<K, V>, b: map<K, V>, k: K, v: V)
    ensures a + b[k := v] == (a + b)[k := v]
  {
  }

  /** Merging into an empty map gives the merged map. */
  lemma MergeIntoEmpty<K, V>(m: map<K, V>)
    ensures map[] + m == m
  {
  }

  /** A prefix one element longer. */
  lemma PrefixSnoc<T>(s: seq<T>, i: nat)
    requires i < |s|
    ensures s[..i + 1] == s[..i] + [s[i]]
  {
  }

  /** A Python `dict` with string keys: its keys in first-insertion order and its contents. */
  datatype OrderedMap<V> = OrderedMap(keys: seq<string>, items: map<string, V>)

  ghost predicate Valid<V>(d: OrderedMap<V>) {
    && (forall i, j :: 0 <= i < j < |d.keys| ==> d.keys[i] != d.keys[j])
    && (forall k :: k in d.items <==> k in d.keys)
  }

  /** `d[k] = v`: a new key goes to the end, an existing key keeps its place. */
  function Insert<V>(d: OrderedMap<V>, k: string, v: V): (r: OrderedMap<V>)
    requires Valid(d)
    ensures Valid(r)
    ensures r.items == d.items[k := v]
    ensures r.keys == if k in d.items then d.keys else d.keys + [k]
  {
    if k in d.items then OrderedMap(d.keys, d.items[k := v])
    else OrderedMap(d.keys + [k], d.items[k := v])
  }

  /** The dictionary built by the assignments of `entries`, with its order. */
  function OrderedAssoc<V>(entries: seq<Option<(string, V)>>): (d: OrderedMap<V>)
    ensures Valid(d)
    ensures d.items == Assoc(entries)
    decreases |entries|
  {
    if entries == [] then OrderedMap([], map[])
    else
      var d := OrderedAssoc(entries[..|entries| - 1]);
      match entries[|entries| - 1]
      case None => d
      case Some(kv) => Insert(d, kv.0, kv.1)
  }

  /** Appending one entry performs its assignment last. */
  lemma OrderedAssocSnoc<V>(entries: seq<Option<(string, V)>>, e: Option<(string, V)>)
    ensures e.None? ==> OrderedAssoc(entries + [e]) == OrderedAssoc(entries)
    ensures e.Some? ==> OrderedAssoc(entries + [e]) == Insert(OrderedAssoc(entries), e.value.0, e.value.1)
  {
    assert (entries + [e])[..|entries|] == entries;
  }
}
