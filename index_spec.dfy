/**
 * What building the classification index for one geometry kind adds to it:
 * per (key, value), the targets contributed by every selected table, for a
 * given order of visiting the tables and their sub-mappings.
 */
module IndexSpec {
  import opened Wrappers
  import opened MappingTypes
  import opened TagTablesIndex

  /** The concatenation of `f` over `xs`, in order. */
  function ConcatMap<T, U>(xs: seq<T>, f: T -> seq<U>): seq<U> {
    if xs == [] then [] else ConcatMap(xs[..|xs| - 1], f) + f(xs[|xs| - 1])
  }

  lemma ConcatMapSnoc<T, U>(xs: seq<T>, x: T, f: T -> seq<U>)
    ensures ConcatMap(xs + [x], f) == ConcatMap(xs, f) + f(x)
  {
    assert (xs + [x])[..|xs|] == xs;
  }

  lemma {:induction false} ConcatMapAppend<T, U>(xs: seq<T>, ys: seq<T>, f: T -> seq<U>)
    ensures ConcatMap(xs + ys, f) == ConcatMap(xs, f) + ConcatMap(ys, f)
    decreases |ys|
  {
    if ys == [] {
      assert xs + ys == xs;
    } else {
      var init := ys[..|ys| - 1];
      var y := ys[|ys| - 1];
      assert ys == init + [y];
      assert xs + ys == (xs + init) + [y];
      ConcatMapAppend(xs, init, f);
      ConcatMapSnoc(xs + init, y, f);
      ConcatMapSnoc(init, y, f);
    }
  }

  lemma {:induction false} ConcatMapMembership<T, U>(xs: seq<T>, f: T -> seq<U>, u: U)
    ensures u in ConcatMap(xs, f) <==> exists i :: 0 <= i < |xs| && u in f(xs[i])
  {
    if xs != [] {
      var init := xs[..|xs| - 1];
      ConcatMapMembership(init, f, u);
      assert forall i :: 0 <= i < |init| ==> xs[i] == init[i];
      if u in f(xs[|xs| - 1]) {
        assert exists i :: 0 <= i < |xs| && u in f(xs[i]);
      }
    }
  }

  /** Functions with pointwise equal multisets give equal multisets over the same list. */
  lemma {:induction false} ConcatMapPointwise<T, U>(xs: seq<T>, f: T -> seq<U>, g: T -> seq<U>)
    requires forall i :: 0 <= i < |xs| ==> multiset(f(xs[i])) == multiset(g(xs[i]))
    ensures multiset(ConcatMap(xs, f)) == multiset(ConcatMap(xs, g))
  {
    if xs != [] {
      var init := xs[..|xs| - 1];
      assert forall i :: 0 <= i < |init| ==> xs[i] == init[i];
      ConcatMapPointwise(init, f, g);
    }
  }

  /** Visiting the same elements in another order gives the same multiset. */
  lemma {:induction false} ConcatMapPermutation<T, U>(xs: seq<T>, ys: seq<T>, f: T -> seq<U>)
    requires multiset(xs) == multiset(ys)
    ensures multiset(ConcatMap(xs, f)) == multiset(ConcatMap(ys, f))
    decreases |xs|
  {
    if xs != [] {
      var init := xs[..|xs| - 1];
      var x := xs[|xs| - 1];
      assert xs == init + [x];
      assert x in multiset(ys);
      var j :| 0 <= j < |ys| && ys[j] == x;
      var ys' := ys[..j] + ys[j + 1..];
      assert ys == ys[..j] + [x] + ys[j + 1..];
      assert multiset(ys) == multiset(ys') + multiset{x};
      assert multiset(xs) == multiset(init) + multiset{x};
      assert multiset(init) == multiset(xs) - multiset{x};
      assert multiset(ys') == multiset(ys) - multiset{x};
      ConcatMapPermutation(init, ys', f);
      ConcatMapSnoc(init, x, f);
      ConcatMapAppend(ys[..j] + [x], ys[j + 1..], f);
      ConcatMapSnoc(ys[..j], x, f);
      ConcatMapAppend(ys[..j], ys[j + 1..], f);
    }
  }

  /** Two orders of the same keys hold the same multiset of keys. */
  lemma {:induction false} EnumerationMultiset<K(!new)>(o: seq<K>, keys: set<K>)
    requires IsEnumeration(o, keys)
    ensures multiset(o) == multiset(keys)
  {
    if o != [] {
      var init := o[..|o| - 1];
      var x := o[|o| - 1];
      EnumerationInit(o, keys);
      EnumerationMultiset(init, keys - {x});
      assert o == init + [x];
      assert multiset(o) == multiset(init) + multiset{x};
      assert keys == (keys - {x}) + {x};
    }
  }

  /** Dropping the last key of an enumeration enumerates the other keys. */
  lemma EnumerationInit<K(!new)>(o: seq<K>, keys: set<K>)
    requires IsEnumeration(o, keys) && o != []
    ensures o[|o| - 1] in keys
    ensures IsEnumeration(o[..|o| - 1], keys - {o[|o| - 1]})
  {
    var init := o[..|o| - 1];
    var x := o[|o| - 1];
    assert x in o;
    forall y | y in init ensures y in keys - {x} {
      var i :| 0 <= i < |init| && init[i] == y;
      assert o[i] == y;
    }
    forall y | y in keys - {x} ensures y in init {
      var i :| 0 <= i < |o| && o[i] == y;
      assert i != |o| - 1;
      assert init[i] == y;
    }
  }

  /** The block of type mappings a table adds for `tableType`; there is none for the other kinds. */
  function TypeBlock(t: Table, tableType: TableType): (kv: KeyValues)
    ensures tableType != PointTable && tableType != LineStringTable && tableType != PolygonTable ==> kv == map[]
  {
    if tableType == PointTable then t.typeMappings.points
    else if tableType == LineStringTable then t.typeMappings.lineStrings
    else if tableType == PolygonTable then t.typeMappings.polygons
    else map[]
  }

  /** The targets the sub-mapping `s` of table `name` gives (k, v). */
  function SubHits(name: string, t: Table, k: Key, v: Value): string -> seq<OrderedDestTable> {
    s => if s in t.mappings then HitsFor(t.mappings[s].mapping, k, v, DestTable(name, s)) else []
  }

  /**
   * The targets table `name` contributes to (k, v) for `tableType`, with
   * its sub-mappings visited in order `subs`: its main mapping, then each
   * sub-mapping, then its type mapping block. A table of another kind than
   * `tableType` or `geometry` contributes nothing.
   */
  function TableContribution(name: string, t: Table, subs: seq<string>, tableType: TableType, k: Key, v: Value)
    : seq<OrderedDestTable>
  {
    if !Selected(t.tableType, tableType) then []
    else
      HitsFor(t.mapping, k, v, DestTable(name, ""))
      + ConcatMap(subs, SubHits(name, t, k, v))
      + HitsFor(TypeBlock(t, tableType), k, v, DestTable(name, ""))
  }

  function TableHits(tables: map<string, Table>, subOrder: map<string, seq<string>>, tableType: TableType, k: Key, v: Value)
    : string -> seq<OrderedDestTable>
  {
    n => if n in tables && n in subOrder then TableContribution(n, tables[n], subOrder[n], tableType, k, v) else []
  }

  /** Everything that building the index adds to (k, v), tables visited in order `names`. */
  function Contribution(tables: map<string, Table>, subOrder: map<string, seq<string>>, tableType: TableType,
                        names: seq<string>, k: Key, v: Value): seq<OrderedDestTable>
  {
    ConcatMap(names, TableHits(tables, subOrder, tableType, k, v))
  }

  /** The orders of visiting tables and sub-mappings are orders of their map keys. */
  ghost predicate ValidOrders(tables: map<string, Table>, names: seq<string>, subOrder: map<string, seq<string>>) {
    && IsEnumeration(names, tables.Keys)
    && (forall n :: n in tables ==> n in subOrder && IsEnumeration(subOrder[n], tables[n].mappings.Keys))
  }

  /**
   * Where a target of (k, v) may come from: a table of kind `tableType` or
   * `geometry` whose main mapping or type mapping block (target without
   * sub-mapping) or whose named sub-mapping (target carrying that name)
   * configures value v for key k with the target's order.
   */
  ghost predicate FromTable(tables: map<string, Table>, tableType: TableType, k: Key, v: Value, d: OrderedDestTable) {
    var n := d.table.name;
    var s := d.table.subMapping;
    var ov := OrderedValue(v, d.order);
    && n in tables
    && Selected(tables[n].tableType, tableType)
    && ((s == "" && (ov in Values(tables[n].mapping, k) || ov in Values(TypeBlock(tables[n], tableType), k)))
        || (s in tables[n].mappings && ov in Values(tables[n].mappings[s].mapping, k)))
  }

  lemma TableContributionMembership(name: string, t: Table, subs: seq<string>, tableType: TableType,
                                    k: Key, v: Value, d: OrderedDestTable)
    requires IsEnumeration(subs, t.mappings.Keys)
    ensures d in TableContribution(name, t, subs, tableType, k, v) <==>
      && d.table.name == name
      && Selected(t.tableType, tableType)
      && ((d.table.subMapping == "" && (OrderedValue(v, d.order) in Values(t.mapping, k)
                                        || OrderedValue(v, d.order) in Values(TypeBlock(t, tableType), k)))
          || (d.table.subMapping in t.mappings
              && OrderedValue(v, d.order) in Values(t.mappings[d.table.subMapping].mapping, k)))
  {
    HitsMembership(Values(t.mapping, k), v, DestTable(name, ""), d);
    HitsMembership(Values(TypeBlock(t, tableType), k), v, DestTable(name, ""), d);
    ConcatMapMembership(subs, SubHits(name, t, k, v), d);
    var s := d.table.subMapping;
    if s in t.mappings {
      HitsMembership(Values(t.mappings[s].mapping, k), v, DestTable(name, s), d);
      var i :| 0 <= i < |subs| && subs[i] == s;
    }
    forall i | 0 <= i < |subs| && d in SubHits(name, t, k, v)(subs[i])
      ensures d.table == DestTable(name, subs[i]) && subs[i] in t.mappings
      ensures OrderedValue(v, d.order) in Values(t.mappings[subs[i]].mapping, k)
    {
      HitsMembership(Values(t.mappings[subs[i]].mapping, k), v, DestTable(name, subs[i]), d);
    }
  }

  /**
   * A target is added to (k, v) exactly when some selected table configures
   * value v for key k, with that order, in the block the target names.
   */
  lemma ContributionMembership(tables: map<string, Table>, subOrder: map<string, seq<string>>, tableType: TableType,
                               names: seq<string>, k: Key, v: Value, d: OrderedDestTable)
    requires ValidOrders(tables, names, subOrder)
    ensures d in Contribution(tables, subOrder, tableType, names, k, v) <==> FromTable(tables, tableType, k, v, d)
  {
    var f := TableHits(tables, subOrder, tableType, k, v);
    ConcatMapMembership(names, f, d);
    var n := d.table.name;
    if n in tables {
      TableContributionMembership(n, tables[n], subOrder[n], tableType, k, v, d);
      var i :| 0 <= i < |names| && names[i] == n;
    }
    forall i | 0 <= i < |names| && d in f(names[i])
      ensures d.table.name == names[i]
    {
      TableContributionMembership(names[i], tables[names[i]], subOrder[names[i]], tableType, k, v, d);
    }
  }

  /**
   * The order in which tables and sub-mappings are visited changes only the
   * positions of the added targets, never which targets are added or how many.
   */
  lemma ContributionOrderIndependent(tables: map<string, Table>, tableType: TableType, k: Key, v: Value,
                                     names1: seq<string>, subOrder1: map<string, seq<string>>,
                                     names2: seq<string>, subOrder2: map<string, seq<string>>)
    requires ValidOrders(tables, names1, subOrder1)
    requires ValidOrders(tables, names2, subOrder2)
    ensures multiset(Contribution(tables, subOrder1, tableType, names1, k, v))
         == multiset(Contribution(tables, subOrder2, tableType, names2, k, v))
  {
    var f1 := TableHits(tables, subOrder1, tableType, k, v);
    var f2 := TableHits(tables, subOrder2, tableType, k, v);
    forall i | 0 <= i < |names1| ensures multiset(f1(names1[i])) == multiset(f2(names1[i])) {
      var n := names1[i];
      var t := tables[n];
      EnumerationMultiset(subOrder1[n], t.mappings.Keys);
      EnumerationMultiset(subOrder2[n], t.mappings.Keys);
      ConcatMapPermutation(subOrder1[n], subOrder2[n], SubHits(n, t, k, v));
    }
    ConcatMapPointwise(names1, f1, f2);
    EnumerationMultiset(names1, tables.Keys);
    EnumerationMultiset(names2, tables.Keys);
    ConcatMapPermutation(names1, names2, f2);
  }

  /** A polygon table with one main mapping entry, no sub-mappings and no type mappings. */
  function SimpleTable(name: string, kv: KeyValues): Table {
    Table(name, PolygonTable, kv, map[], TypeMappings(map[], map[], map[]), [], None, None)
  }

  /**
   * Two tables both mapping highway=primary: the entry lists both, in the
   * order the tables are visited, so which comes first follows the map
   * iteration and not the declaration.
   */
  lemma CrossTableExample()
    ensures
      var kv := map["highway" := [OrderedValue("primary", 0)]];
      var tables := map["T1" := SimpleTable("T1", kv), "T2" := SimpleTable("T2", kv)];
      var subOrder := map["T1" := [], "T2" := []];
      && Contribution(tables, subOrder, PolygonTable, ["T1", "T2"], "highway", "primary")
         == [OrderedDestTable(DestTable("T1", ""), 0), OrderedDestTable(DestTable("T2", ""), 0)]
      && Contribution(tables, subOrder, PolygonTable, ["T2", "T1"], "highway", "primary")
         == [OrderedDestTable(DestTable("T2", ""), 0), OrderedDestTable(DestTable("T1", ""), 0)]
  {
    var kv := map["highway" := [OrderedValue("primary", 0)]];
    var tables := map["T1" := SimpleTable("T1", kv), "T2" := SimpleTable("T2", kv)];
    var subOrder: map<string, seq<string>> := map["T1" := [], "T2" := []];
    var f := TableHits(tables, subOrder, PolygonTable, "highway", "primary");
    SimpleTableContribution("T1", kv);
    SimpleTableContribution("T2", kv);
    assert f("T1") == [OrderedDestTable(DestTable("T1", ""), 0)];
    assert f("T2") == [OrderedDestTable(DestTable("T2", ""), 0)];
    ConcatMapPair("T1", "T2", f);
    ConcatMapPair("T2", "T1", f);
  }

  /** A table of the example maps highway=primary to one target without sub-mapping. */
  lemma SimpleTableContribution(n: string, kv: KeyValues)
    requires kv == map["highway" := [OrderedValue("primary", 0)]]
    ensures TableContribution(n, SimpleTable(n, kv), [], PolygonTable, "highway", "primary")
         == [OrderedDestTable(DestTable(n, ""), 0)]
  {
    var t := SimpleTable(n, kv);
    var ov := OrderedValue("primary", 0);
    HitsAppend([], ov, "primary", DestTable(n, ""));
    assert [] + [ov] == [ov];
    assert Values(t.mapping, "highway") == [ov];
    assert HitsFor(t.mapping, "highway", "primary", DestTable(n, "")) == [OrderedDestTable(DestTable(n, ""), 0)];
    assert HitsFor(TypeBlock(t, PolygonTable), "highway", "primary", DestTable(n, "")) == [];
  }

  lemma ConcatMapPair<T, U>(a: T, b: T, f: T -> seq<U>)
    ensures ConcatMap([a, b], f) == f(a) + f(b)
  {
    ConcatMapSnoc([a], b, f);
    ConcatMapSnoc([], a, f);
    assert [a] + [b] == [a, b];
  }
}
