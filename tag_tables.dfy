/**
 * The classification index: tag key to tag value to the destination tables
 * that element is routed to, each with the order of the configured value
 * that put it there. The index is only ever appended to.
 */
module TagTablesIndex {
  import opened MappingTypes

  /** The index as a value: key to value to routing targets. */
  type Index = map<Key, map<Value, seq<OrderedDestTable>>>

  /** The targets for (k, v); empty when either level is missing. */
  function EntriesOf(e: Index, k: Key, v: Value): seq<OrderedDestTable> {
    if k in e && v in e[k] then e[k][v] else []
  }

  /** Inner maps and target lists are created only when something is appended to them. */
  ghost predicate NoEmpty(e: Index) {
    forall k :: k in e ==> e[k] != map[] && forall v :: v in e[k] ==> e[k][v] != []
  }

  /** The targets that the configured values `vals` equal to `v` produce for `table`, in order. */
  function Hits(vals: seq<OrderedValue>, v: Value, table: DestTable): seq<OrderedDestTable> {
    if vals == [] then []
    else
      var last := vals[|vals| - 1];
      Hits(vals[..|vals| - 1], v, table) + (if last.value == v then [OrderedDestTable(table, last.order)] else [])
  }

  /** The targets a whole block produces for (k, v). */
  function HitsFor(kv: KeyValues, k: Key, v: Value, table: DestTable): seq<OrderedDestTable> {
    Hits(Values(kv, k), v, table)
  }

  lemma HitsAppend(vals: seq<OrderedValue>, x: OrderedValue, v: Value, table: DestTable)
    ensures Hits(vals + [x], v, table)
      == Hits(vals, v, table) + (if x.value == v then [OrderedDestTable(table, x.order)] else [])
  {
    assert (vals + [x])[..|vals|] == vals;
  }

  /** A target is produced for (k, v) exactly when the block configures value v with that order. */
  lemma {:induction false} HitsMembership(vals: seq<OrderedValue>, v: Value, table: DestTable, d: OrderedDestTable)
    ensures d in Hits(vals, v, table) <==> d.table == table && OrderedValue(v, d.order) in vals
  {
    if vals != [] {
      var init := vals[..|vals| - 1];
      var last := vals[|vals| - 1];
      assert vals == init + [last];
      HitsMembership(init, v, table, d);
    }
  }

  /** One target per occurrence: value v gets as many targets as it occurs in the block. */
  lemma {:induction false} HitsCount(vals: seq<OrderedValue>, v: Value, table: DestTable)
    ensures |Hits(vals, v, table)| == |set n | 0 <= n < |vals| && vals[n].value == v|
  {
    var s := set n | 0 <= n < |vals| && vals[n].value == v;
    if vals != [] {
      var init := vals[..|vals| - 1];
      var last := vals[|vals| - 1];
      var s0 := set n | 0 <= n < |init| && init[n].value == v;
      HitsCount(init, v, table);
      if last.value == v {
        assert s == s0 + {|init|};
      } else {
        assert s == s0;
      }
    }
  }

  // Sums over the entries of a map.

  function ValuesLength(l: seq<OrderedValue>): nat { |l| }
  function TargetsLength(l: seq<OrderedDestTable>): nat { |l| }

  /** The sum of `f` over the entries of `m` whose keys are in `keys`. */
  ghost function SumOver<K, V>(m: map<K, V>, keys: set<K>, f: V -> nat): nat
    requires keys <= m.Keys
    decreases keys
  {
    if keys == {} then 0
    else
      var k :| k in keys;
      f(m[k]) + SumOver(m, keys - {k}, f)
  }

  lemma {:induction false} SumOverRemove<K, V>(m: map<K, V>, keys: set<K>, f: V -> nat, y: K)
    requires keys <= m.Keys && y in keys
    ensures SumOver(m, keys, f) == f(m[y]) + SumOver(m, keys - {y}, f)
    decreases keys
  {
    var k :| k in keys && SumOver(m, keys, f) == f(m[k]) + SumOver(m, keys - {k}, f);
    if k != y {
      SumOverRemove(m, keys - {k}, f, y);
      SumOverRemove(m, keys - {y}, f, k);
      assert keys - {k} - {y} == keys - {y} - {k};
    }
  }

  lemma {:induction false} SumOverFrame<K, V>(m1: map<K, V>, m2: map<K, V>, keys: set<K>, f: V -> nat)
    requires keys <= m1.Keys && keys <= m2.Keys
    requires forall k :: k in keys ==> f(m1[k]) == f(m2[k])
    ensures SumOver(m1, keys, f) == SumOver(m2, keys, f)
    decreases keys
  {
    if keys != {} {
      var y :| y in keys;
      SumOverRemove(m1, keys, f, y);
      SumOverRemove(m2, keys, f, y);
      SumOverFrame(m1, m2, keys - {y}, f);
    }
  }

  /** Replacing the entry of `k` changes the sum by the difference of the two entries. */
  lemma SumOverUpdate<K, V>(m: map<K, V>, k: K, x: V, f: V -> nat)
    ensures SumOver(m[k := x], m[k := x].Keys, f)
      == SumOver(m, m.Keys, f) - (if k in m then f(m[k]) else 0) + f(x)
  {
    var m' := m[k := x];
    SumOverRemove(m', m'.Keys, f, k);
    assert m'.Keys - {k} == m.Keys - {k};
    SumOverFrame(m', m, m.Keys - {k}, f);
    if k in m {
      SumOverRemove(m, m.Keys, f, k);
    } else {
      assert m.Keys - {k} == m.Keys;
    }
  }

  /** The number of targets in one inner map. */
  ghost function InnerTotal(inner: map<Value, seq<OrderedDestTable>>): nat {
    SumOver(inner, inner.Keys, TargetsLength)
  }

  /** The number of targets in the whole index. */
  ghost function TotalOf(e: Index): nat {
    SumOver(e, e.Keys, InnerTotal)
  }

  /** The number of values in a block. */
  ghost function ValueCount(kv: KeyValues): nat {
    SumOver(kv, kv.Keys, ValuesLength)
  }

  /** The index after appending target `x` to the list of (k, v), as the two branches of the source do. */
  function Appended(e: Index, k: Key, v: Value, x: OrderedDestTable): Index {
    if k in e then e[k := e[k][v := (if v in e[k] then e[k][v] else []) + [x]]]
    else e[k := map[v := [x]]]
  }

  /** One append keeps the index free of empty inner maps and lists. */
  lemma AppendedNoEmpty(e: Index, k: Key, v: Value, x: OrderedDestTable)
    requires NoEmpty(e)
    ensures NoEmpty(Appended(e, k, v, x))
  {
    var e' := Appended(e, k, v, x);
    forall k' | k' in e' ensures e'[k'] != map[] {
      if k' == k {
        assert v in e'[k'];
      }
    }
  }

  /** One append adds `x` at the end of the list of (k, v) and changes no other list. */
  lemma AppendedAt(e: Index, k: Key, v: Value, x: OrderedDestTable, k': Key, v': Value)
    ensures EntriesOf(Appended(e, k, v, x), k', v') == EntriesOf(e, k', v') + (if k' == k && v' == v then [x] else [])
  {
  }

  /** One append adds exactly one target to the index. */
  lemma AppendedTotal(e: Index, k: Key, v: Value, x: OrderedDestTable)
    ensures TotalOf(Appended(e, k, v, x)) == TotalOf(e) + 1
  {
    var inner := if k in e then e[k] else map[];
    var l := if v in inner then inner[v] else [];
    SumOverUpdate(inner, v, l + [x], TargetsLength);
    assert InnerTotal(inner[v := l + [x]]) == InnerTotal(inner) + 1;
    if k !in e {
      assert inner == map[];
      assert InnerTotal(inner) == 0;
      assert l + [x] == [x];
      assert inner[v := l + [x]] == map[v := [x]];
    }
    SumOverUpdate(e, k, inner[v := l + [x]], InnerTotal);
  }

  lemma UpdateTwice<K, V>(m: map<K, V>, k: K, a: V, b: V)
    ensures m[k := a][k := b] == m[k := b]
  {
  }

  /** `e` is `e0` with the targets of block `added` for `table` appended, pair by pair. */
  ghost predicate Grown(e: Index, e0: Index, added: KeyValues, table: DestTable) {
    forall k, v :: EntriesOf(e, k, v) == EntriesOf(e0, k, v) + HitsFor(added, k, v, table)
  }

  /** Giving a key no values yet changes nothing. */
  lemma GrownEmpty(e: Index, e0: Index, added: KeyValues, table: DestTable, key: Key)
    requires key !in added
    requires Grown(e, e0, added, table)
    ensures Grown(e, e0, added[key := []], table)
    ensures ValueCount(added[key := []]) == ValueCount(added)
  {
    SumOverUpdate(added, key, [], ValuesLength);
  }

  lemma GrownAt(e: Index, e0: Index, added: KeyValues, table: DestTable, key: Key, ov: OrderedValue, k: Key, v: Value)
    requires EntriesOf(e, k, v) == EntriesOf(e0, k, v) + HitsFor(added, k, v, table)
    ensures EntriesOf(Appended(e, key, ov.value, OrderedDestTable(table, ov.order)), k, v)
      == EntriesOf(e0, k, v) + HitsFor(added[key := Values(added, key) + [ov]], k, v, table)
  {
    AppendedAt(e, key, ov.value, OrderedDestTable(table, ov.order), k, v);
    if k == key {
      HitsAppend(Values(added, key), ov, v, table);
    } else {
      assert HitsFor(added[key := Values(added, key) + [ov]], k, v, table) == HitsFor(added, k, v, table);
    }
  }

  /** Appending the target of one more value of `key` grows the added block by that value. */
  lemma GrownStep(e: Index, e0: Index, added: KeyValues, table: DestTable, key: Key, ov: OrderedValue)
    requires NoEmpty(e)
    requires Grown(e, e0, added, table)
    ensures NoEmpty(Appended(e, key, ov.value, OrderedDestTable(table, ov.order)))
    ensures Grown(Appended(e, key, ov.value, OrderedDestTable(table, ov.order)), e0,
                  added[key := Values(added, key) + [ov]], table)
    ensures ValueCount(added[key := Values(added, key) + [ov]]) == ValueCount(added) + 1
  {
    AppendedNoEmpty(e, key, ov.value, OrderedDestTable(table, ov.order));
    forall k, v
      ensures EntriesOf(Appended(e, key, ov.value, OrderedDestTable(table, ov.order)), k, v)
        == EntriesOf(e0, k, v) + HitsFor(added[key := Values(added, key) + [ov]], k, v, table)
    {
      GrownAt(e, e0, added, table, key, ov, k, v);
    }
    SumOverUpdate(added, key, Values(added, key) + [ov], ValuesLength);
  }

  /** One turn of the inner loop of `addFromMapping` keeps its invariant. */
  lemma AddValuesStep(e: Index, e0: Index, added: KeyValues, table: DestTable, key: Key, vals: seq<OrderedValue>, i: nat)
    requires i < |vals|
    requires NoEmpty(e) && Grown(e, e0, added[key := vals[..i]], table)
    requires TotalOf(e) == TotalOf(e0) + ValueCount(added[key := vals[..i]])
    ensures var e' := Appended(e, key, vals[i].value, OrderedDestTable(table, vals[i].order));
      && NoEmpty(e') && Grown(e', e0, added[key := vals[..i + 1]], table)
      && TotalOf(e') == TotalOf(e0) + ValueCount(added[key := vals[..i + 1]])
  {
    var cur := added[key := vals[..i]];
    var ov := vals[i];
    GrownStep(e, e0, cur, table, key, ov);
    AppendedTotal(e, key, ov.value, OrderedDestTable(table, ov.order));
    assert Values(cur, key) + [ov] == vals[..i + 1];
    UpdateTwice(added, key, vals[..i], vals[..i + 1]);
  }

  /** `TagTables`: the index, updated in place while the mapping is compiled. */
  class TagTables {
    var entries: Index

    ghost predicate Valid()
      reads this
    {
      NoEmpty(entries)
    }

    /** The number of targets over all (key, value) pairs. */
    ghost function Total(): nat
      reads this
    {
      TotalOf(entries)
    }

    constructor ()
      ensures Valid() && entries == map[]
    {
      entries := map[];
    }

    /** Appends target `x` to the list of (k, v), creating the inner map of `k` when it is missing. */
    method Append(k: Key, v: Value, x: OrderedDestTable)
      requires Valid()
      modifies this
      ensures Valid() && entries == Appended(old(entries), k, v, x)
    {
      AppendedNoEmpty(entries, k, v, x);
      if k in entries {
        var inner := entries[k];
        entries := entries[k := inner[v := (if v in inner then inner[v] else []) + [x]]];
      } else {
        entries := entries[k := map[v := [x]]];
      }
    }

    /**
     * The inner loop of `addFromMapping`: appends the target of each value of
     * `key`. `added` is the part of the block already appended since `e0`.
     */
    method AddValues(key: Key, vals: seq<OrderedValue>, table: DestTable, ghost e0: Index, ghost added: KeyValues)
      requires key !in added
      requires NoEmpty(entries) && Grown(entries, e0, added, table)
      requires TotalOf(entries) == TotalOf(e0) + ValueCount(added)
      modifies this
      ensures NoEmpty(entries) && Grown(entries, e0, added[key := vals], table)
      ensures TotalOf(entries) == TotalOf(e0) + ValueCount(added[key := vals])
    {
      GrownEmpty(entries, e0, added, table, key);
      ghost var cur := added[key := []];
      var i := 0;
      assert vals[..i] == [];
      while i < |vals|
        invariant 0 <= i <= |vals|
        invariant cur == added[key := vals[..i]]
        invariant NoEmpty(entries)
        invariant Grown(entries, e0, cur, table)
        invariant TotalOf(entries) == TotalOf(e0) + ValueCount(cur)
      {
        var ov := vals[i];
        ghost var before := entries;
        Append(key, ov.value, OrderedDestTable(table, ov.order));
        AddValuesStep(before, e0, added, table, key, vals, i);
        cur := added[key := vals[..i + 1]];
        i := i + 1;
      }
      assert vals[..i] == vals;
    }

    /**
     * `TagTables.addFromMapping`: appends one target (table, order) for every
     * configured value, to the list of its (key, value). Keys are visited in
     * an unspecified order, which does not change the result.
     */
    method AddFromMapping(mapping: KeyValues, table: DestTable)
      requires Valid()
      modifies this
      ensures Valid()
      ensures forall k, v :: EntriesOf(entries, k, v) == EntriesOf(old(entries), k, v) + HitsFor(mapping, k, v, table)
      ensures Total() == old(Total()) + ValueCount(mapping)
    {
      ghost var e0 := entries;
      ghost var added: KeyValues := map[];
      var rest := mapping.Keys;
      while rest != {}
        invariant rest <= mapping.Keys
        invariant added == map k | k in mapping.Keys - rest :: mapping[k]
        invariant NoEmpty(entries)
        invariant Grown(entries, e0, added, table)
        invariant TotalOf(entries) == TotalOf(e0) + ValueCount(added)
        decreases rest
      {
        var key :| key in rest;
        AddValues(key, mapping[key], table, e0, added);
        added := added[key := mapping[key]];
        rest := rest - {key};
      }
      assert added == mapping;
    }
  }
}
