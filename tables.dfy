/** A JavaScript `Map<number, V>` as the store uses it: `get`, `set`, `delete` and
    `Array.from(map.values())`. A JavaScript map remembers the order in which keys were
    first inserted; `set` on a key already present keeps its place. */
module Tables {
  import opened Domain

  /** A key that does not occur twice in the order. */
  ghost predicate Distinct(s: seq<int>) {
    forall i, j | 0 <= i < j < |s| :: s[i] != s[j]
  }

  ghost predicate Ascending(s: seq<int>) {
    forall i, j | 0 <= i < j < |s| :: s[i] < s[j]
  }

  /** `s` without the members of `gone`, the rest in order. */
  function Drop(s: seq<int>, gone: set<int>): (r: seq<int>)
    ensures forall k :: k in r <==> k in s && k !in gone
    ensures |r| <= |s|
  {
    if s == [] then [] else (if s[0] in gone then [] else [s[0]]) + Drop(s[1..], gone)
  }

  lemma {:induction false} DropTwice(s: seq<int>, a: set<int>, b: set<int>)
    ensures Drop(Drop(s, a), b) == Drop(s, a + b)
  {
    if s != [] {
      DropTwice(s[1..], a, b);
      if s[0] in a {
        assert Drop(s, a) == Drop(s[1..], a);
        assert Drop(s, a + b) == Drop(s[1..], a + b);
      } else {
        var once := Drop(s[1..], a);
        assert Drop(s, a) == [s[0]] + once;
        assert ([s[0]] + once)[1..] == once;
        assert Drop([s[0]] + once, b) == (if s[0] in b then [] else [s[0]]) + Drop(once, b);
      }
    }
  }

  lemma {:induction false} DropNothing(s: seq<int>, gone: set<int>)
    requires forall i | 0 <= i < |s| :: s[i] !in gone
    ensures Drop(s, gone) == s
  {
    if s != [] {
      assert s[0] !in gone;
      DropNothing(s[1..], gone);
      assert s == [s[0]] + s[1..];
    }
  }

  lemma {:induction false} DropAscending(s: seq<int>, gone: set<int>)
    requires Ascending(s)
    ensures Ascending(Drop(s, gone))
  {
    if s != [] {
      DropAscending(s[1..], gone);
      var rest := Drop(s[1..], gone);
      forall j | 0 <= j < |rest| ensures s[0] < rest[j] {
        assert rest[j] in rest;
        var i :| 0 <= i < |s[1..]| && s[1..][i] == rest[j];
        assert s[i + 1] == rest[j];
      }
      if s[0] !in gone {
        var r := Drop(s, gone);
        assert r == [s[0]] + rest;
        forall i, j | 0 <= i < j < |r| ensures r[i] < r[j] {
          if i > 0 {
            assert r[i] == rest[i - 1] && r[j] == rest[j - 1];
          }
        }
      }
    }
  }

  datatype Table<V> = Table(keys: seq<int>, entries: map<int, V>) {

    /** The order lists each stored key exactly once. */
    ghost predicate Valid() {
      Distinct(keys) && forall k :: k in keys <==> k in entries
    }

    /** `map.get(k)`. */
    function Get(k: int): (r: Option<V>)
      ensures r.Some? <==> k in entries
      ensures r.Some? ==> r.value == entries[k]
    {
      if k in entries then Some(entries[k]) else None
    }

    /** `map.set(k, v)`: a new key goes last, a present key keeps its place. */
    function Set(k: int, v: V): (t: Table<V>)
      requires Valid()
      ensures t.Valid()
      ensures t.entries == entries[k := v]
      ensures k in entries ==> t.keys == keys
      ensures k !in entries ==> t.keys == keys + [k]
    {
      if k in entries then Table(keys, entries[k := v]) else Table(keys + [k], entries[k := v])
    }

    /** `map.delete(k)`; the flag says whether the key was there. */
    function Remove(k: int): (t: Table<V>)
      requires Valid()
      ensures t.Valid()
      ensures t.entries == entries - {k}
      ensures t.keys == Drop(keys, {k})
    {
      DropKeepsDistinct(keys, {k});
      Table(Drop(keys, {k}), entries - {k})
    }

    /** `Array.from(map.values())`. */
    function Values(): (vs: seq<V>)
      requires Valid()
      ensures |vs| == |keys|
      ensures forall i | 0 <= i < |keys| :: keys[i] in entries && vs[i] == entries[keys[i]]
    {
      assert forall i | 0 <= i < |keys| :: keys[i] in entries by {
        forall i | 0 <= i < |keys| ensures keys[i] in entries {
          assert keys[i] in keys;
          assert forall k :: k in keys <==> k in entries;
        }
      }
      seq(|keys|, i requires 0 <= i < |keys| => entries[keys[i]])
    }
  }

  lemma {:induction false} DropKeepsDistinct(s: seq<int>, gone: set<int>)
    requires Distinct(s)
    ensures Distinct(Drop(s, gone))
  {
    if s != [] {
      DropKeepsDistinct(s[1..], gone);
    }
  }

  /** Every stored value appears in `values()`, and nothing else does. */
  lemma ValuesAreEntries<V>(t: Table<V>, v: V)
    requires t.Valid()
    ensures v in t.Values() <==> exists k :: k in t.entries && t.entries[k] == v
  {
    if exists k :: k in t.entries && t.entries[k] == v {
      var k :| k in t.entries && t.entries[k] == v;
      var i :| 0 <= i < |t.keys| && t.keys[i] == k;
      assert t.Values()[i] == v;
    }
  }

  /** Overwriting a present key changes its value in place in `values()`. */
  lemma {:induction false} SetPresentValues<V>(t: Table<V>, k: int, v: V)
    requires t.Valid() && k in t.entries
    ensures forall i | 0 <= i < |t.keys| ::
      t.Set(k, v).Values()[i] == if t.keys[i] == k then v else t.Values()[i]
  {
  }

  /** A new key appends its value to `values()`. */
  lemma {:induction false} SetFreshValues<V>(t: Table<V>, k: int, v: V)
    requires t.Valid() && k !in t.entries
    ensures t.Set(k, v).Values() == t.Values() + [v]
  {
    var after := t.Set(k, v).Values();
    assert |after| == |t.Values()| + 1;
    forall i | 0 <= i < |after| ensures after[i] == (t.Values() + [v])[i] {
      if i < |t.keys| {
        assert t.keys[i] != k;
      }
    }
  }
}
