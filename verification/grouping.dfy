/** A `$group` stage: input rows are (key, value) pairs; the output holds one
    group per distinct key with the values pushed for that key, in input
    order. MongoDB does not fix the order of the output documents; this model
    lists groups in order of first appearance of their key. */
module Grouping {

  datatype Group<K, V> = Group(key: K, values: seq<V>)

  /** Reference definition: the values of the rows whose key is `k`, in order. */
  function ValuesOf<K(==), V(==)>(items: seq<(K, V)>, k: K): seq<V> {
    if |items| == 0 then []
    else
      var last := items[|items| - 1];
      ValuesOf(items[..|items| - 1], k) + (if last.0 == k then [last.1] else [])
  }

  function KeySet<K(==), V(==)>(items: seq<(K, V)>): set<K> {
    set it | it in items :: it.0
  }

  function GroupKeys<K(==), V(==)>(groups: seq<Group<K, V>>): set<K> {
    set g | g in groups :: g.key
  }

  predicate DistinctKeys<K(==), V(==)>(groups: seq<Group<K, V>>) {
    forall i, j :: 0 <= i < j < |groups| ==> groups[i].key != groups[j].key
  }

  /** The position of the group with key `k`, or -1 when there is none. */
  function Find<K(==), V(==)>(groups: seq<Group<K, V>>, k: K): (i: int)
    ensures -1 <= i < |groups|
    ensures 0 <= i ==> groups[i].key == k
    ensures i == -1 <==> k !in GroupKeys(groups)
  {
    if |groups| == 0 then -1
    else if groups[0].key == k then 0
    else
      var i := Find(groups[1..], k);
      assert GroupKeys(groups) == GroupKeys(groups[1..]) + {groups[0].key} by {
        assert groups == [groups[0]] + groups[1..];
      }
      if i == -1 then -1 else i + 1
  }

  /** Accumulates one row: push onto the existing group, or open a new one. */
  function Add<K(==), V(==)>(groups: seq<Group<K, V>>, k: K, v: V): seq<Group<K, V>> {
    var i := Find(groups, k);
    if i == -1 then groups + [Group(k, [v])]
    else groups[i := Group(k, groups[i].values + [v])]
  }

  /** A key that no row carries has no values. */
  lemma {:induction false} AbsentKeyNoValues<K, V>(items: seq<(K, V)>, k: K)
    requires k !in KeySet(items)
    ensures ValuesOf(items, k) == []
    decreases |items|
  {
    if |items| > 0 {
      var prefix := items[..|items| - 1];
      assert KeySet(prefix) <= KeySet(items) by {
        forall it | it in prefix ensures it in items {
        }
      }
      assert items[|items| - 1] in items;
      AbsentKeyNoValues(prefix, k);
    }
  }

  /** Appending a row extends the values of its key and no other key's. */
  lemma ValuesOfSnoc<K, V>(prefix: seq<(K, V)>, k: K, v: V, key: K)
    ensures ValuesOf(prefix + [(k, v)], key) == ValuesOf(prefix, key) + (if key == k then [v] else [])
  {
    var items := prefix + [(k, v)];
    assert items[..|items| - 1] == prefix;
  }

  lemma AddKeys<K, V>(groups: seq<Group<K, V>>, prefix: seq<(K, V)>, k: K, v: V)
    requires GroupKeys(groups) == KeySet(prefix)
    ensures GroupKeys(Add(groups, k, v)) == KeySet(prefix + [(k, v)])
  {
    var items := prefix + [(k, v)];
    assert KeySet(items) == KeySet(prefix) + {k} by {
      forall it | it in items ensures it in prefix || it == (k, v) {
      }
    }
    var out := Add(groups, k, v);
    if Find(groups, k) == -1 {
      assert GroupKeys(out) == GroupKeys(groups) + {k} by {
        assert out == groups + [Group(k, [v])];
        forall g | g in out ensures g in groups || g == Group(k, [v]) {
        }
      }
    } else {
      assert GroupKeys(out) == GroupKeys(groups) by {
        forall g | g in out ensures g.key in GroupKeys(groups) {
          var j :| 0 <= j < |out| && out[j] == g;
          assert groups[j] in groups;
        }
        forall g | g in groups ensures g.key in GroupKeys(out) {
          var j :| 0 <= j < |groups| && groups[j] == g;
          assert out[j] in out;
        }
      }
    }
  }

  lemma AddDistinct<K, V>(groups: seq<Group<K, V>>, k: K, v: V)
    requires DistinctKeys(groups)
    requires forall i :: 0 <= i < |groups| ==> |groups[i].values| > 0
    ensures DistinctKeys(Add(groups, k, v))
    ensures forall i :: 0 <= i < |Add(groups, k, v)| ==> |Add(groups, k, v)[i].values| > 0
  {
  }

  lemma AddValues<K, V>(groups: seq<Group<K, V>>, prefix: seq<(K, V)>, k: K, v: V)
    requires DistinctKeys(groups)
    requires GroupKeys(groups) == KeySet(prefix)
    requires forall i :: 0 <= i < |groups| ==> groups[i].values == ValuesOf(prefix, groups[i].key)
    ensures forall i :: 0 <= i < |Add(groups, k, v)| ==>
              Add(groups, k, v)[i].values == ValuesOf(prefix + [(k, v)], Add(groups, k, v)[i].key)
  {
    var out := Add(groups, k, v);
    forall j | 0 <= j < |out|
      ensures out[j].values == ValuesOf(prefix + [(k, v)], out[j].key)
    {
      ValuesOfSnoc(prefix, k, v, out[j].key);
      if j == |groups| {
        AbsentKeyNoValues(prefix, k);
      }
    }
  }

  /** One step of the fold keeps the four facts `GroupBy` promises. */
  lemma AddStep<K, V>(groups: seq<Group<K, V>>, prefix: seq<(K, V)>, k: K, v: V)
    requires DistinctKeys(groups)
    requires GroupKeys(groups) == KeySet(prefix)
    requires forall i :: 0 <= i < |groups| ==> groups[i].values == ValuesOf(prefix, groups[i].key)
    requires forall i :: 0 <= i < |groups| ==> |groups[i].values| > 0
    ensures DistinctKeys(Add(groups, k, v))
    ensures GroupKeys(Add(groups, k, v)) == KeySet(prefix + [(k, v)])
    ensures forall i :: 0 <= i < |Add(groups, k, v)| ==>
              Add(groups, k, v)[i].values == ValuesOf(prefix + [(k, v)], Add(groups, k, v)[i].key)
    ensures forall i :: 0 <= i < |Add(groups, k, v)| ==> |Add(groups, k, v)[i].values| > 0
  {
    AddKeys(groups, prefix, k, v);
    AddDistinct(groups, k, v);
    AddValues(groups, prefix, k, v);
  }

  /** The `$group` stage as a left fold of `Add` over the rows. */
  function GroupBy<K(==), V(==)>(items: seq<(K, V)>): (groups: seq<Group<K, V>>)
    ensures DistinctKeys(groups)
    ensures GroupKeys(groups) == KeySet(items)
    ensures forall i :: 0 <= i < |groups| ==> groups[i].values == ValuesOf(items, groups[i].key)
    ensures forall i :: 0 <= i < |groups| ==> |groups[i].values| > 0
    decreases |items|
  {
    if |items| == 0 then []
    else
      var prefix := items[..|items| - 1];
      var last := items[|items| - 1];
      assert items == prefix + [(last.0, last.1)];
      AddStep(GroupBy(prefix), prefix, last.0, last.1);
      Add(GroupBy(prefix), last.0, last.1)
  }

  /** Splitting the rows splits every key's values the same way. */
  lemma {:induction false} ValuesOfAppend<K, V>(a: seq<(K, V)>, b: seq<(K, V)>, k: K)
    ensures ValuesOf(a + b, k) == ValuesOf(a, k) + ValuesOf(b, k)
    decreases |b|
  {
    if |b| > 0 {
      var b' := b[..|b| - 1];
      assert (a + b)[..|a + b| - 1] == a + b';
      ValuesOfAppend(a, b', k);
    } else {
      assert a + b == a;
    }
  }

  /** A value is among a key's values exactly when some row pairs them. */
  lemma {:induction false} ValuesOfMembers<K, V>(items: seq<(K, V)>, k: K, v: V)
    ensures v in ValuesOf(items, k) <==> (k, v) in items
    decreases |items|
  {
    if |items| > 0 {
      var prefix := items[..|items| - 1];
      ValuesOfMembers(prefix, k, v);
      assert items == prefix + [items[|items| - 1]];
    }
  }

  /** With distinct keys, there are as many groups as distinct keys. */
  lemma {:induction false} DistinctKeysCount<K, V>(groups: seq<Group<K, V>>)
    requires DistinctKeys(groups)
    ensures |GroupKeys(groups)| == |groups|
    decreases |groups|
  {
    if |groups| > 0 {
      var prefix := groups[..|groups| - 1];
      var last := groups[|groups| - 1];
      DistinctKeysCount(prefix);
      assert GroupKeys(groups) == GroupKeys(prefix) + {last.key} by {
        assert groups == prefix + [last];
      }
    }
  }
}
