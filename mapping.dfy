/**
 * The mapping document after decoding: normalization, building the
 * classification index for one geometry kind, the tags to keep for a kind,
 * and compiling the element filters of every table.
 */
module MappingConfig {
  import opened Wrappers
  import opened MappingTypes
  import opened TagTablesIndex
  import opened IndexSpec
  import opened Filtering

  // ---------------------------------------------------------------------
  // Keys referenced by a table's columns

  /** The keys one column reads: its `key` unless empty, and every entry of `keys`. */
  function FieldKeySet(f: Field): set<Key> {
    (if f.key != "" then {f.key} else {}) + ToSet(f.keys)
  }

  /** The keys the columns `fields` read. */
  function FieldKeys(fields: seq<Field>): set<Key> {
    if fields == [] then {} else FieldKeys(fields[..|fields| - 1]) + FieldKeySet(fields[|fields| - 1])
  }

  /** A key is read by some column, as its non-empty `key` or as one of its `keys`. */
  lemma {:induction false} FieldKeysMembership(fields: seq<Field>, k: Key)
    ensures k in FieldKeys(fields) <==>
      exists i :: 0 <= i < |fields| && ((fields[i].key != "" && fields[i].key == k) || k in fields[i].keys)
  {
    if fields != [] {
      var init := fields[..|fields| - 1];
      FieldKeysMembership(init, k);
      assert forall i :: 0 <= i < |init| ==> init[i] == fields[i];
    }
  }

  /** `Table.ExtraTags`: the keys read by the columns of `t`. */
  method TableExtraTags(t: Table) returns (tags: set<Key>)
    ensures tags == FieldKeys(t.fields)
  {
    tags := {};
    var i := 0;
    while i < |t.fields|
      invariant 0 <= i <= |t.fields|
      invariant tags == FieldKeys(t.fields[..i])
    {
      var field := t.fields[i];
      assert t.fields[..i + 1][..i] == t.fields[..i];
      if field.key != "" {
        tags := tags + {field.key};
      }
      var j := 0;
      while j < |field.keys|
        invariant 0 <= j <= |field.keys|
        invariant tags == FieldKeys(t.fields[..i]) + (if field.key != "" then {field.key} else {}) + ToSet(field.keys[..j])
      {
        assert field.keys[..j + 1] == field.keys[..j] + [field.keys[j]];
        ToSetSnoc(field.keys[..j], field.keys[j]);
        tags := tags + {field.keys[j]};
        j := j + 1;
      }
      assert field.keys[..j] == field.keys;
      i := i + 1;
    }
    assert t.fields[..i] == t.fields;
  }

  // ---------------------------------------------------------------------
  // Marking keys in a `map[Key]bool`

  /** `tags` after setting every key of `ks` to true. */
  function Marked(tags: map<Key, bool>, ks: set<Key>): (r: map<Key, bool>)
    ensures r.Keys == tags.Keys + ks
    ensures forall k :: k in ks ==> r[k]
    ensures forall k :: k in tags && k !in ks ==> r[k] == tags[k]
  {
    map k | k in tags.Keys + ks :: if k in ks then true else tags[k]
  }

  lemma MarkedTwice(tags: map<Key, bool>, a: set<Key>, b: set<Key>)
    ensures Marked(Marked(tags, a), b) == Marked(tags, a + b)
  {
  }

  lemma MarkedOne(tags: map<Key, bool>, a: set<Key>, k: Key)
    ensures Marked(tags, a)[k := true] == Marked(tags, a + {k})
  {
  }

  /** Marks every key of `ks`, visited in an unspecified order. */
  method MarkSet(tags0: map<Key, bool>, ks: set<Key>) returns (tags: map<Key, bool>)
    ensures tags == Marked(tags0, ks)
  {
    tags := tags0;
    var rest := ks;
    while rest != {}
      invariant rest <= ks
      invariant tags == Marked(tags0, ks - rest)
      decreases rest
    {
      var k :| k in rest;
      MarkedOne(tags0, ks - rest, k);
      tags := tags[k := true];
      assert ks - rest + {k} == ks - (rest - {k});
      rest := rest - {k};
    }
  }

  /** Marks every key of `keys`, in order. */
  method MarkSeq(tags0: map<Key, bool>, keys: seq<Key>) returns (tags: map<Key, bool>)
    ensures tags == Marked(tags0, ToSet(keys))
  {
    tags := tags0;
    var i := 0;
    while i < |keys|
      invariant 0 <= i <= |keys|
      invariant tags == Marked(tags0, ToSet(keys[..i]))
    {
      MarkedOne(tags0, ToSet(keys[..i]), keys[i]);
      assert keys[..i + 1] == keys[..i] + [keys[i]];
      ToSetSnoc(keys[..i], keys[i]);
      tags := tags[keys[i] := true];
      i := i + 1;
    }
    assert keys[..i] == keys;
  }

  // ---------------------------------------------------------------------
  // Normalization

  /** A table after normalization: named after its key, the deprecated `fields` (when given) as its columns. */
  function PreparedTable(name: string, t: Table): Table {
    t.(name := name, fields := if t.oldFields.Some? then t.oldFields.value else t.fields)
  }

  /** Every table carries the name it is stored under and the columns normalization gives it. */
  ghost predicate TablesNormalized(tables: map<string, Table>) {
    forall n :: n in tables ==> tables[n] == PreparedTable(n, tables[n])
  }

  /** Normalizing a normalized table changes nothing. */
  lemma PrepareIdempotent(name: string, t: Table)
    ensures PreparedTable(name, PreparedTable(name, t)) == PreparedTable(name, t)
    ensures PreparedTable(name, t).name == name
    ensures t.oldFields.Some? ==> PreparedTable(name, t).fields == t.oldFields.value
    ensures t.oldFields.None? ==> PreparedTable(name, t).fields == t.fields
  {
  }

  /** Every generalized table carries the name it is stored under. */
  ghost predicate GeneralizedNormalized(gs: map<string, GeneralizedTable>) {
    forall n :: n in gs ==> gs[n].name == n
  }

  /** On an already normalized document, normalization changes nothing. */
  lemma PrepareNoOp(ts: map<string, Table>, gs: map<string, GeneralizedTable>)
    requires TablesNormalized(ts) && GeneralizedNormalized(gs)
    ensures (map n | n in ts :: PreparedTable(n, ts[n])) == ts
    ensures (map n | n in gs :: gs[n].(name := n)) == gs
  {
    assert forall n :: n in gs ==> gs[n].(name := n) == gs[n];
  }

  // ---------------------------------------------------------------------
  // Building the index, one table at a time

  lemma SubMappingStep(e0: Index, before: Index, after: Index, name: string, t: Table, subs: seq<string>, j: nat)
    requires j < |subs| && subs[j] in t.mappings
    requires forall k, v :: EntriesOf(before, k, v) == EntriesOf(e0, k, v) + ConcatMap(subs[..j], SubHits(name, t, k, v))
    requires forall k, v :: EntriesOf(after, k, v)
                         == EntriesOf(before, k, v) + HitsFor(t.mappings[subs[j]].mapping, k, v, DestTable(name, subs[j]))
    ensures forall k, v :: EntriesOf(after, k, v) == EntriesOf(e0, k, v) + ConcatMap(subs[..j + 1], SubHits(name, t, k, v))
  {
    forall k, v
      ensures EntriesOf(after, k, v) == EntriesOf(e0, k, v) + ConcatMap(subs[..j + 1], SubHits(name, t, k, v))
    {
      SnocAt(EntriesOf(e0, k, v), EntriesOf(before, k, v), EntriesOf(after, k, v), subs, j, SubHits(name, t, k, v));
    }
  }

  /** One more element of `xs` appends its part to a list that held the parts of the elements before it. */
  lemma SnocAt<T, U>(l0: seq<U>, before: seq<U>, after: seq<U>, xs: seq<T>, j: nat, f: T -> seq<U>)
    requires j < |xs|
    requires before == l0 + ConcatMap(xs[..j], f)
    requires after == before + f(xs[j])
    ensures after == l0 + ConcatMap(xs[..j + 1], f)
  {
    assert xs[..j + 1] == xs[..j] + [xs[j]];
    ConcatMapSnoc(xs[..j], xs[j], f);
    Assoc(l0, ConcatMap(xs[..j], f), f(xs[j]));
  }

  /** Adds the sub-mappings `subs` of table `name`, in that order. */
  method AddSubMappings(tt: TagTables, name: string, t: Table, subs: seq<string>)
    requires tt.Valid()
    requires forall j :: 0 <= j < |subs| ==> subs[j] in t.mappings
    modifies tt
    ensures tt.Valid()
    ensures forall k, v :: EntriesOf(tt.entries, k, v) == EntriesOf(old(tt.entries), k, v) + ConcatMap(subs, SubHits(name, t, k, v))
  {
    ghost var e0 := tt.entries;
    var j := 0;
    while j < |subs|
      invariant 0 <= j <= |subs|
      invariant tt.Valid()
      invariant forall k, v :: EntriesOf(tt.entries, k, v) == EntriesOf(e0, k, v) + ConcatMap(subs[..j], SubHits(name, t, k, v))
    {
      var subMappingName := subs[j];
      ghost var before := tt.entries;
      tt.AddFromMapping(t.mappings[subMappingName].mapping, DestTable(name, subMappingName));
      SubMappingStep(e0, before, tt.entries, name, t, subs, j);
      j := j + 1;
    }
    assert subs[..j] == subs;
  }

  lemma TableStep(e0: Index, e1: Index, e2: Index, e3: Index, name: string, t: Table, subs: seq<string>, tableType: TableType)
    requires Selected(t.tableType, tableType)
    requires forall k, v :: EntriesOf(e1, k, v) == EntriesOf(e0, k, v) + HitsFor(t.mapping, k, v, DestTable(name, ""))
    requires forall k, v :: EntriesOf(e2, k, v) == EntriesOf(e1, k, v) + ConcatMap(subs, SubHits(name, t, k, v))
    requires forall k, v :: EntriesOf(e3, k, v) == EntriesOf(e2, k, v) + HitsFor(TypeBlock(t, tableType), k, v, DestTable(name, ""))
    ensures forall k, v :: EntriesOf(e3, k, v) == EntriesOf(e0, k, v) + TableContribution(name, t, subs, tableType, k, v)
  {
    forall k, v
      ensures EntriesOf(e3, k, v) == EntriesOf(e0, k, v) + TableContribution(name, t, subs, tableType, k, v)
    {
      TableStepAt(EntriesOf(e0, k, v), EntriesOf(e1, k, v), EntriesOf(e2, k, v), EntriesOf(e3, k, v), name, t, subs, tableType, k, v);
    }
  }

  lemma TableStepAt(l0: seq<OrderedDestTable>, l1: seq<OrderedDestTable>, l2: seq<OrderedDestTable>, l3: seq<OrderedDestTable>,
                    name: string, t: Table, subs: seq<string>, tableType: TableType, k: Key, v: Value)
    requires Selected(t.tableType, tableType)
    requires l1 == l0 + HitsFor(t.mapping, k, v, DestTable(name, ""))
    requires l2 == l1 + ConcatMap(subs, SubHits(name, t, k, v))
    requires l3 == l2 + HitsFor(TypeBlock(t, tableType), k, v, DestTable(name, ""))
    ensures l3 == l0 + TableContribution(name, t, subs, tableType, k, v)
  {
    var a := HitsFor(t.mapping, k, v, DestTable(name, ""));
    var b := ConcatMap(subs, SubHits(name, t, k, v));
    var c := HitsFor(TypeBlock(t, tableType), k, v, DestTable(name, ""));
    assert TableContribution(name, t, subs, tableType, k, v) == a + b + c;
    Assoc(l0, a, b);
    Assoc(l0, a + b, c);
  }

  /** What one selected table adds: its main mapping, its sub-mappings, then the type block of `tableType`. */
  method AddTable(tt: TagTables, name: string, t: Table, subs: seq<string>, tableType: TableType)
    requires tt.Valid()
    requires forall j :: 0 <= j < |subs| ==> subs[j] in t.mappings
    requires Selected(t.tableType, tableType)
    modifies tt
    ensures tt.Valid()
    ensures forall k, v :: EntriesOf(tt.entries, k, v)
                        == EntriesOf(old(tt.entries), k, v) + TableContribution(name, t, subs, tableType, k, v)
  {
    ghost var e0 := tt.entries;
    tt.AddFromMapping(t.mapping, DestTable(name, ""));
    ghost var e1 := tt.entries;
    AddSubMappings(tt, name, t, subs);
    ghost var e2 := tt.entries;
    if tableType == PointTable {
      tt.AddFromMapping(t.typeMappings.points, DestTable(name, ""));
    } else if tableType == LineStringTable {
      tt.AddFromMapping(t.typeMappings.lineStrings, DestTable(name, ""));
    } else if tableType == PolygonTable {
      tt.AddFromMapping(t.typeMappings.polygons, DestTable(name, ""));
    }
    TableStep(e0, e1, e2, tt.entries, name, t, subs, tableType);
  }

  /** The table visited at position i exists, and its sub-mapping order names its sub-mappings. */
  lemma OrdersAt(tables: map<string, Table>, tableOrder: seq<string>, subOrder: map<string, seq<string>>, i: nat)
    requires ValidOrders(tables, tableOrder, subOrder) && i < |tableOrder|
    ensures tableOrder[i] in tables && tableOrder[i] in subOrder
    ensures forall j :: 0 <= j < |subOrder[tableOrder[i]]| ==> subOrder[tableOrder[i]][j] in tables[tableOrder[i]].mappings
  {
    assert tableOrder[i] in tableOrder;
    var subs := subOrder[tableOrder[i]];
    forall j | 0 <= j < |subs| ensures subs[j] in tables[tableOrder[i]].mappings {
      assert subs[j] in subs;
    }
  }

  /** The body of the table loop of `mappings`: adds the targets of table `name` when it is of kind `tableType` or `geometry`. */
  method VisitTable(tt: TagTables, tables: map<string, Table>, subOrder: map<string, seq<string>>, tableType: TableType, name: string)
    requires tt.Valid()
    requires name in tables && name in subOrder
    requires forall j :: 0 <= j < |subOrder[name]| ==> subOrder[name][j] in tables[name].mappings
    modifies tt
    ensures tt.Valid()
    ensures forall k, v :: EntriesOf(tt.entries, k, v)
                        == EntriesOf(old(tt.entries), k, v) + TableHits(tables, subOrder, tableType, k, v)(name)
  {
    var t := tables[name];
    if Selected(t.tableType, tableType) {
      AddTable(tt, name, t, subOrder[name], tableType);
    } else {
      assert forall k, v :: TableHits(tables, subOrder, tableType, k, v)(name) == [];
    }
  }

  lemma MappingsStep(e0: Index, before: Index, after: Index, tables: map<string, Table>, subOrder: map<string, seq<string>>,
                     tableType: TableType, tableOrder: seq<string>, i: nat)
    requires i < |tableOrder|
    requires forall k, v :: EntriesOf(before, k, v) == EntriesOf(e0, k, v) + Contribution(tables, subOrder, tableType, tableOrder[..i], k, v)
    requires forall k, v :: EntriesOf(after, k, v)
                         == EntriesOf(before, k, v) + TableHits(tables, subOrder, tableType, k, v)(tableOrder[i])
    ensures forall k, v :: EntriesOf(after, k, v) == EntriesOf(e0, k, v) + Contribution(tables, subOrder, tableType, tableOrder[..i + 1], k, v)
  {
    forall k, v
      ensures EntriesOf(after, k, v) == EntriesOf(e0, k, v) + Contribution(tables, subOrder, tableType, tableOrder[..i + 1], k, v)
    {
      SnocAt(EntriesOf(e0, k, v), EntriesOf(before, k, v), EntriesOf(after, k, v), tableOrder, i, TableHits(tables, subOrder, tableType, k, v));
    }
  }


  // ---------------------------------------------------------------------
  // Keys to keep for a geometry kind

  /** The keys of the `exclude_tags` pairs `excludeTags`. */
  function FirstKeys(excludeTags: seq<seq<string>>): set<Key> {
    set e | e in excludeTags && |e| >= 1 :: e[0]
  }

  lemma FirstKeysSnoc(excludeTags: seq<seq<string>>, e: seq<string>)
    requires |e| >= 1
    ensures FirstKeys(excludeTags + [e]) == FirstKeys(excludeTags) + {e[0]}
  {
  }

  /** The keys `extraTags` keeps for table t: those of its columns and those of its `exclude_tags`. */
  function TableKeys(t: Table): set<Key> {
    FieldKeys(t.fields)
    + (if t.filters.Some? && t.filters.value.excludeTags.Some? then FirstKeys(t.filters.value.excludeTags.value) else {})
  }

  /** The keys kept for the tables `names` of kind `tableType` or `geometry`. */
  function SelectedKeys(tables: map<string, Table>, tableType: TableType, names: set<string>): set<Key> {
    set n, k | n in names && n in tables && Selected(tables[n].tableType, tableType) && k in TableKeys(tables[n]) :: k
  }

  lemma SelectedKeysStep(tables: map<string, Table>, tableType: TableType, names: set<string>, n: string)
    requires n in tables
    ensures SelectedKeys(tables, tableType, names + {n})
         == SelectedKeys(tables, tableType, names) + (if Selected(tables[n].tableType, tableType) then TableKeys(tables[n]) else {})
  {
  }

  /** Everything `extraTags` marks: the selected tables' keys, the globally included keys and `area`. */
  function ExtraTagSet(tables: map<string, Table>, tableType: TableType, includeKeys: seq<Key>): set<Key> {
    SelectedKeys(tables, tableType, tables.Keys) + ToSet(includeKeys) + {"area"}
  }

  /**
   * A key is marked exactly when it is `area`, globally included, read by a
   * column of a table of kind `tableType` or `geometry`, or the key of one of
   * that table's `exclude_tags` pairs.
   */
  lemma ExtraTagSetMembership(tables: map<string, Table>, tableType: TableType, includeKeys: seq<Key>, k: Key)
    ensures k in ExtraTagSet(tables, tableType, includeKeys) <==>
      || k == "area"
      || k in includeKeys
      || exists n :: n in tables && Selected(tables[n].tableType, tableType) &&
           ((exists i :: 0 <= i < |tables[n].fields| &&
               ((tables[n].fields[i].key != "" && tables[n].fields[i].key == k) || k in tables[n].fields[i].keys))
            || (tables[n].filters.Some? && tables[n].filters.value.excludeTags.Some? &&
                exists e :: e in tables[n].filters.value.excludeTags.value && |e| >= 1 && e[0] == k))
  {
    forall n | n in tables {
      FieldKeysMembership(tables[n].fields, k);
    }
    assert k in SelectedKeys(tables, tableType, tables.Keys) <==>
      exists n :: n in tables && Selected(tables[n].tableType, tableType) && k in TableKeys(tables[n]);
  }

  /** Marks the key of every `exclude_tags` pair. */
  method MarkExcluded(tags0: map<Key, bool>, excludeTags: seq<seq<string>>) returns (tags: map<Key, bool>)
    requires forall i :: 0 <= i < |excludeTags| ==> |excludeTags[i]| >= 1
    ensures tags == Marked(tags0, FirstKeys(excludeTags))
  {
    tags := tags0;
    var i := 0;
    assert excludeTags[..0] == [];
    while i < |excludeTags|
      invariant 0 <= i <= |excludeTags|
      invariant tags == Marked(tags0, FirstKeys(excludeTags[..i]))
    {
      var keyVal := excludeTags[i];
      MarkedOne(tags0, FirstKeys(excludeTags[..i]), keyVal[0]);
      assert excludeTags[..i + 1] == excludeTags[..i] + [keyVal];
      FirstKeysSnoc(excludeTags[..i], keyVal);
      tags := tags[keyVal[0] := true];
      i := i + 1;
    }
    assert excludeTags[..i] == excludeTags;
  }

  /** Every `exclude_tags` pair of a table of kind `tableType` or `geometry` has a key. */
  predicate ExcludeKeysPresent(tables: map<string, Table>, tableType: TableType) {
    forall n :: n in tables && Selected(tables[n].tableType, tableType) && tables[n].filters.Some?
                && tables[n].filters.value.excludeTags.Some? ==>
      forall i :: 0 <= i < |tables[n].filters.value.excludeTags.value| ==> |tables[n].filters.value.excludeTags.value[i]| >= 1
  }

  /** The body of the table loop of `extraTags`: marks the keys of table t when it is of kind `tableType` or `geometry`. */
  method MarkTable(tags0: map<Key, bool>, t: Table, tableType: TableType) returns (tags: map<Key, bool>)
    requires Selected(t.tableType, tableType) && t.filters.Some? && t.filters.value.excludeTags.Some? ==>
      forall i :: 0 <= i < |t.filters.value.excludeTags.value| ==> |t.filters.value.excludeTags.value[i]| >= 1
    ensures tags == Marked(tags0, if Selected(t.tableType, tableType) then TableKeys(t) else {})
  {
    tags := tags0;
    if !Selected(t.tableType, tableType) {
      return;
    }
    var fieldTags := TableExtraTags(t);
    tags := MarkSet(tags, fieldTags);
    if t.filters.Some? && t.filters.value.excludeTags.Some? {
      tags := MarkExcluded(tags, t.filters.value.excludeTags.value);
      MarkedTwice(tags0, fieldTags, FirstKeys(t.filters.value.excludeTags.value));
    }
  }

  // ---------------------------------------------------------------------
  // Compiling the filters of one table

  /** The area or linear tags as a set, nil staying nil. */
  function HintSet(tags: Option<seq<Key>>): (r: Option<set<Key>>)
    ensures r.Some? <==> tags.Some?
    ensures r.Some? ==> forall k :: k in r.value <==> k in tags.value
  {
    if tags.Some? then Some(ToSet(tags.value)) else None
  }

  /** Collects `keys` into a set, as the source builds `areaTags` and `linearTags`. */
  method KeySet(keys: seq<Key>) returns (s: set<Key>)
    ensures s == ToSet(keys)
  {
    s := {};
    var i := 0;
    while i < |keys|
      invariant 0 <= i <= |keys|
      invariant s == ToSet(keys[..i])
    {
      assert keys[..i + 1] == keys[..i] + [keys[i]];
      ToSetSnoc(keys[..i], keys[i]);
      s := s + {keys[i]};
      i := i + 1;
    }
    assert keys[..i] == keys;
  }

  method AppendLegacy(list0: seq<ElementFilter>, name: string, excludeTags: seq<seq<string>>) returns (list: seq<ElementFilter>)
    requires forall i :: 0 <= i < |excludeTags| ==> |excludeTags[i]| >= 2
    ensures list == list0 + Legacy(name, excludeTags)
  {
    list := list0;
    var i := 0;
    while i < |excludeTags|
      invariant 0 <= i <= |excludeTags|
      invariant list == list0 + Legacy(name, excludeTags[..i])
    {
      var filterKeyVal := excludeTags[i];
      assert excludeTags[..i + 1][..i] == excludeTags[..i];
      list := list + [MakeFiltersFunction(name, false, true, filterKeyVal[0], [OrderedValue(filterKeyVal[1], 1)])];
      i := i + 1;
    }
    assert excludeTags[..i] == excludeTags;
  }

  lemma FamilySnoc(name: string, virtualTrue: bool, virtualFalse: bool, kv: KeyValues, order: seq<Key>, i: nat)
    requires i < |order| && order[i] in kv
    ensures Family(name, virtualTrue, virtualFalse, kv, order[..i + 1])
         == Family(name, virtualTrue, virtualFalse, kv, order[..i]) + [MakeFiltersFunction(name, virtualTrue, virtualFalse, order[i], kv[order[i]])]
  {
    assert order[..i + 1][..i] == order[..i];
  }

  method AppendFamily(list0: seq<ElementFilter>, name: string, virtualTrue: bool, virtualFalse: bool,
                      kv: KeyValues, order: seq<Key>) returns (list: seq<ElementFilter>)
    requires forall i :: 0 <= i < |order| ==> order[i] in kv
    ensures list == list0 + Family(name, virtualTrue, virtualFalse, kv, order)
  {
    list := list0;
    var i := 0;
    while i < |order|
      invariant 0 <= i <= |order|
      invariant list == list0 + Family(name, virtualTrue, virtualFalse, kv, order[..i])
    {
      var keyname := order[i];
      var f := MakeFiltersFunction(name, virtualTrue, virtualFalse, keyname, kv[keyname]);
      FamilySnoc(name, virtualTrue, virtualFalse, kv, order, i);
      Assoc(list0, Family(name, virtualTrue, virtualFalse, kv, order[..i]), [f]);
      list := list + [f];
      i := i + 1;
    }
    assert order[..i] == order;
  }

  /** Once a pattern fails to compile, so does the whole family. */
  lemma {:induction false} RegexpFamilyErrExtends(name: string, virtualTrue: bool, virtualFalse: bool, kr: KeyRegexpValue,
                                                  order: seq<Key>, re: RegexpEngine, j: nat)
    requires j <= |order|
    requires RegexpFamily(name, virtualTrue, virtualFalse, kr, order[..j], re).Err?
    ensures RegexpFamily(name, virtualTrue, virtualFalse, kr, order, re) == RegexpFamily(name, virtualTrue, virtualFalse, kr, order[..j], re)
    decreases |order| - j
  {
    if j < |order| {
      assert order[..j + 1][..j] == order[..j];
      RegexpFamilyErrExtends(name, virtualTrue, virtualFalse, kr, order, re, j + 1);
    } else {
      assert order[..j] == order;
    }
  }

  method AppendRegexpFamily(list0: seq<ElementFilter>, name: string, virtualTrue: bool, virtualFalse: bool,
                            kr: KeyRegexpValue, order: seq<Key>, re: RegexpEngine) returns (r: Result<seq<ElementFilter>, string>)
    requires forall i :: 0 <= i < |order| ==> order[i] in kr
    ensures RegexpFamily(name, virtualTrue, virtualFalse, kr, order, re).Err? ==>
              r == Err(RegexpFamily(name, virtualTrue, virtualFalse, kr, order, re).error)
    ensures RegexpFamily(name, virtualTrue, virtualFalse, kr, order, re).Ok? ==>
              r == Ok(list0 + RegexpFamily(name, virtualTrue, virtualFalse, kr, order, re).value)
  {
    var list := list0;
    var i := 0;
    while i < |order|
      invariant 0 <= i <= |order|
      invariant RegexpFamily(name, virtualTrue, virtualFalse, kr, order[..i], re).Ok?
      invariant list == list0 + RegexpFamily(name, virtualTrue, virtualFalse, kr, order[..i], re).value
    {
      var keyname := order[i];
      assert order[..i + 1][..i] == order[..i];
      var f := MakeRegexpFiltersFunction(name, virtualTrue, virtualFalse, keyname, kr[keyname], re);
      if f.Err? {
        RegexpFamilyErrExtends(name, virtualTrue, virtualFalse, kr, order, re, i + 1);
        return Err(f.error);
      }
      list := list + [f.value];
      i := i + 1;
    }
    assert order[..i] == order;
    r := Ok(list);
  }

  lemma OrderKeysPresent(o: FilterOrder, f: Filters)
    requires ValidFilterOrder(o, f)
    ensures forall i :: 0 <= i < |o.require| ==> o.require[i] in f.require
    ensures forall i :: 0 <= i < |o.reject| ==> o.reject[i] in f.reject
    ensures forall i :: 0 <= i < |o.requireRegexp| ==> o.requireRegexp[i] in f.requireRegexp
    ensures forall i :: 0 <= i < |o.rejectRegexp| ==> o.rejectRegexp[i] in f.rejectRegexp
  {
    forall i | 0 <= i < |o.require| ensures o.require[i] in f.require { assert o.require[i] in o.require; }
    forall i | 0 <= i < |o.reject| ensures o.reject[i] in f.reject { assert o.reject[i] in o.reject; }
    forall i | 0 <= i < |o.requireRegexp| ensures o.requireRegexp[i] in f.requireRegexp {
      assert o.requireRegexp[i] in o.requireRegexp;
    }
    forall i | 0 <= i < |o.rejectRegexp| ensures o.rejectRegexp[i] in f.rejectRegexp {
      assert o.rejectRegexp[i] in o.rejectRegexp;
    }
  }

  /** Appends the filters of a table's `filters` block to `list0`, or fails with the first bad pattern. */
  method AppendFilterFamilies(list0: seq<ElementFilter>, name: string, f: Filters, o: FilterOrder, re: RegexpEngine)
    returns (r: Result<seq<ElementFilter>, string>)
    requires LegacyWellFormed(f) && ValidFilterOrder(o, f)
    ensures FilterFamilies(name, f, o, re).Err? ==> r == Err(FilterFamilies(name, f, o, re).error)
    ensures FilterFamilies(name, f, o, re).Ok? ==> r == Ok(list0 + FilterFamilies(name, f, o, re).value)
  {
    OrderKeysPresent(o, f);
    var list := list0;
    ghost var legacy: seq<ElementFilter> := [];
    if f.excludeTags.Some? {
      list := AppendLegacy(list, name, f.excludeTags.value);
      legacy := Legacy(name, f.excludeTags.value);
    } else {
      assert list == list0 + legacy;
    }
    ghost var rq := Family(name, true, false, f.require, o.require);
    ghost var rj := Family(name, false, true, f.reject, o.reject);
    list := AppendFamily(list, name, true, false, f.require, o.require);
    list := AppendFamily(list, name, false, true, f.reject, o.reject);
    Assoc(list0, legacy, rq);
    Assoc(list0, legacy + rq, rj);
    var xr := AppendRegexpFamily(list, name, true, false, f.requireRegexp, o.requireRegexp, re);
    if xr.Err? {
      return Err(xr.error);
    }
    r := AppendRegexpFamily(xr.value, name, false, true, f.rejectRegexp, o.rejectRegexp, re);
    if r.Ok? {
      ghost var xq := RegexpFamily(name, true, false, f.requireRegexp, o.requireRegexp, re).value;
      ghost var xj := RegexpFamily(name, false, true, f.rejectRegexp, o.rejectRegexp, re).value;
      Assoc(list0, legacy + rq + rj, xq);
      Assoc(list0, legacy + rq + rj + xq, xj);
    }
  }

  /** Builds the list of one table (the body of the loop of `ElementFilters`). */
  method TableFilters(name: string, t: Table, areaTags: Option<set<Key>>, linearTags: Option<set<Key>>,
                      o: FilterOrder, re: RegexpEngine) returns (r: Result<seq<ElementFilter>, string>)
    requires ExcludeTagsWellFormed(t)
    requires t.filters.Some? ==> ValidFilterOrder(o, t.filters.value)
    ensures r == CompiledFilters(name, t, areaTags, linearTags, o, re)
  {
    var list: seq<ElementFilter> := [];
    if t.tableType == LineStringTable && areaTags.Some? {
      list := list + [AreaHeuristic(areaTags.value)];
    }
    if t.tableType == PolygonTable && linearTags.Some? {
      list := list + [LinearHeuristic(linearTags.value)];
    }
    assert list == Heuristics(t, areaTags, linearTags);
    if t.filters.None? {
      return Ok(list);
    }
    r := AppendFilterFamilies(list, name, t.filters.value, o, re);
  }

  /** The list `ElementFilters` builds for table n, area and linear tags taken from `areas`. */
  function FiltersOf(tables: map<string, Table>, areas: Areas, orders: map<string, FilterOrder>, re: RegexpEngine, n: string)
    : Result<seq<ElementFilter>, string>
    requires n in tables && ExcludeTagsWellFormed(tables[n])
  {
    CompiledFilters(n, tables[n], HintSet(areas.areaTags), HintSet(areas.linearTags), OrderOf(orders, n), re)
  }

  /** When table n's list fails, the error is one of the table's patterns, and it does not compile. */
  lemma FiltersOfErr(tables: map<string, Table>, areas: Areas, orders: map<string, FilterOrder>, re: RegexpEngine, n: string)
    requires n in tables && ExcludeTagsWellFormed(tables[n])
    requires tables[n].filters.Some? ==> ValidFilterOrder(OrderOf(orders, n), tables[n].filters.value)
    ensures FiltersOf(tables, areas, orders, re, n).Err? ==>
      && !re.compiles(FiltersOf(tables, areas, orders, re, n).error)
      && tables[n].filters.Some?
      && ConfiguredPattern(tables[n].filters.value, FiltersOf(tables, areas, orders, re, n).error)
  {
    if tables[n].filters.Some? {
      FilterFamiliesErr(n, tables[n].filters.value, OrderOf(orders, n), re);
    }
  }

  /** The iteration orders of table n's filter families; a table without filters has none. */
  function OrderOf(orders: map<string, FilterOrder>, n: string): FilterOrder {
    if n in orders then orders[n] else FilterOrder([], [], [], [])
  }

  lemma FiltersOfOk(tables: map<string, Table>, areas: Areas, orders: map<string, FilterOrder>, re: RegexpEngine, n: string)
    requires n in tables && ExcludeTagsWellFormed(tables[n])
    requires tables[n].filters.Some? ==> ValidFilterOrder(OrderOf(orders, n), tables[n].filters.value)
    ensures FiltersOf(tables, areas, orders, re, n).Ok? <==>
            (tables[n].filters.Some? ==> PatternsCompile(tables[n].filters.value, re))
  {
    CompiledFiltersSemantics(n, tables[n], HintSet(areas.areaTags), HintSet(areas.linearTags), OrderOf(orders, n), re,
                             map[], "", false);
  }

  /** The mapping document. */
  /** The table loop of `ElementFilters`, over the area and linear tags already collected into sets. */
  method CompileTables(tables: map<string, Table>, areas: Areas, orders: map<string, FilterOrder>, re: RegexpEngine,
                       areaTags: Option<set<Key>>, linearTags: Option<set<Key>>)
    returns (r: Result<map<string, seq<ElementFilter>>, string>)
    requires areaTags == HintSet(areas.areaTags) && linearTags == HintSet(areas.linearTags)
    requires forall n :: n in tables ==> ExcludeTagsWellFormed(tables[n])
    requires forall n :: n in tables && tables[n].filters.Some? ==> ValidFilterOrder(OrderOf(orders, n), tables[n].filters.value)
    ensures r.Ok? <==> forall n :: n in tables ==> FiltersOf(tables, areas, orders, re, n).Ok?
    ensures r.Err? ==> exists n :: n in tables && FiltersOf(tables, areas, orders, re, n) == Err(r.error)
    ensures r.Ok? ==> forall n :: n in r.value ==> n in tables && FiltersOf(tables, areas, orders, re, n) == Ok(r.value[n])
    ensures r.Ok? ==> forall n :: n in tables && n !in r.value ==> FiltersOf(tables, areas, orders, re, n) == Ok([])
  {
    var result: map<string, seq<ElementFilter>> := map[];
    var rest := tables.Keys;
    while rest != {}
      invariant rest <= tables.Keys
      invariant forall n :: n in tables && n !in rest ==> FiltersOf(tables, areas, orders, re, n).Ok?
      invariant forall n :: n in result ==> n in tables && n !in rest && FiltersOf(tables, areas, orders, re, n) == Ok(result[n])
      invariant forall n :: n in tables && n !in rest && n !in result ==> FiltersOf(tables, areas, orders, re, n) == Ok([])
      decreases rest
    {
      var name :| name in rest;
      var fs := TableFilters(name, tables[name], areaTags, linearTags, OrderOf(orders, name), re);
      assert fs == FiltersOf(tables, areas, orders, re, name);
      if fs.Err? {
        return Err(fs.error);
      }
      if fs.value != [] {
        result := result[name := fs.value];
      }
      rest := rest - {name};
    }
    r := Ok(result);
  }

  class Mapping {
    var tables: map<string, Table>
    var generalizedTables: map<string, GeneralizedTable>
    var tags: Tags
    var areas: Areas
    var singleIdSpace: bool

    constructor (tables: map<string, Table>, generalizedTables: map<string, GeneralizedTable>,
                 tags: Tags, areas: Areas, singleIdSpace: bool)
      ensures this.tables == tables && this.generalizedTables == generalizedTables
      ensures this.tags == tags && this.areas == areas && this.singleIdSpace == singleIdSpace
    {
      this.tables := tables;
      this.generalizedTables := generalizedTables;
      this.tags := tags;
      this.areas := areas;
      this.singleIdSpace := singleIdSpace;
    }

    /**
     * `Mapping.prepare`: names every table and generalized table after its
     * key and moves the deprecated `fields` into the columns; afterwards
     * the tables are normalized, so preparing again changes nothing.
     */
    method Prepare()
      modifies this
      ensures tables == map n | n in old(tables) :: PreparedTable(n, old(tables)[n])
      ensures generalizedTables == map n | n in old(generalizedTables) :: old(generalizedTables)[n].(name := n)
      ensures TablesNormalized(tables) && GeneralizedNormalized(generalizedTables)
      ensures tags == old(tags) && areas == old(areas) && singleIdSpace == old(singleIdSpace)
    {
      ghost var t0 := tables;
      NameTables();
      NameGeneralizedTables();
      forall n | n in tables ensures tables[n] == PreparedTable(n, tables[n]) {
        PrepareIdempotent(n, t0[n]);
      }
    }

    /** The first loop of `prepare`: names each table after its key and moves `fields` into its columns. */
    method NameTables()
      modifies this
      ensures tables == map n | n in old(tables) :: PreparedTable(n, old(tables)[n])
      ensures generalizedTables == old(generalizedTables)
      ensures tags == old(tags) && areas == old(areas) && singleIdSpace == old(singleIdSpace)
    {
      ghost var t0 := tables;
      var rest := tables.Keys;
      while rest != {}
        invariant rest <= t0.Keys
        invariant tables == map n | n in t0 :: if n in rest then t0[n] else PreparedTable(n, t0[n])
        invariant tags == old(tags) && areas == old(areas) && singleIdSpace == old(singleIdSpace)
        invariant generalizedTables == old(generalizedTables)
        decreases rest
      {
        var name :| name in rest;
        var t := tables[name];
        tables := tables[name := PreparedTable(name, t)];
        rest := rest - {name};
      }
    }

    /** The second loop of `prepare`: names each generalized table after its key. */
    method NameGeneralizedTables()
      modifies this
      ensures generalizedTables == map n | n in old(generalizedTables) :: old(generalizedTables)[n].(name := n)
      ensures tables == old(tables)
      ensures tags == old(tags) && areas == old(areas) && singleIdSpace == old(singleIdSpace)
    {
      ghost var g0 := generalizedTables;
      var grest := generalizedTables.Keys;
      while grest != {}
        invariant grest <= g0.Keys
        invariant generalizedTables == map n | n in g0 :: if n in grest then g0[n] else g0[n].(name := n)
        invariant tables == old(tables)
        invariant tags == old(tags) && areas == old(areas) && singleIdSpace == old(singleIdSpace)
        decreases grest
      {
        var name :| name in grest;
        var g := generalizedTables[name];
        generalizedTables := generalizedTables[name := g.(name := name)];
        grest := grest - {name};
      }
    }

    /**
     * `Mapping.mappings`: adds to `tt` the targets of every table of kind
     * `tableType` or `geometry`, tables visited in `tableOrder` and the
     * sub-mappings of table n in `subOrder[n]` (orders of Go's map
     * iteration).
     */
    method Mappings(tableType: TableType, tt: TagTables, tableOrder: seq<string>, subOrder: map<string, seq<string>>)
      requires tt.Valid()
      requires ValidOrders(tables, tableOrder, subOrder)
      modifies tt
      ensures tt.Valid()
      ensures forall k, v :: EntriesOf(tt.entries, k, v)
                          == EntriesOf(old(tt.entries), k, v) + Contribution(tables, subOrder, tableType, tableOrder, k, v)
    {
      ghost var e0 := tt.entries;
      var i := 0;
      while i < |tableOrder|
        invariant 0 <= i <= |tableOrder|
        invariant tt.Valid()
        invariant forall k, v :: EntriesOf(tt.entries, k, v)
                              == EntriesOf(e0, k, v) + Contribution(tables, subOrder, tableType, tableOrder[..i], k, v)
      {
        ghost var before := tt.entries;
        OrdersAt(tables, tableOrder, subOrder, i);
        VisitTable(tt, tables, subOrder, tableType, tableOrder[i]);
        MappingsStep(e0, before, tt.entries, tables, subOrder, tableType, tableOrder, i);
        i := i + 1;
      }
      assert tableOrder[..i] == tableOrder;
    }

    /**
     * `Mapping.extraTags`: marks in `tags0` the keys read by the columns and
     * the `exclude_tags` keys of every table of kind `tableType` or
     * `geometry`, the globally included keys and `area`; keys already
     * present stay, with their value unless marked.
     */
    method ExtraTags(tableType: TableType, tags0: map<Key, bool>) returns (result: map<Key, bool>)
      requires ExcludeKeysPresent(tables, tableType)
      ensures result == Marked(tags0, ExtraTagSet(tables, tableType, tags.includeKeys))
      ensures "area" in result && result["area"]
      ensures forall k :: k in tags.includeKeys ==> k in result && result[k]
      ensures forall k :: k in tags0 ==> k in result
    {
      result := tags0;
      var rest := tables.Keys;
      while rest != {}
        invariant rest <= tables.Keys
        invariant result == Marked(tags0, SelectedKeys(tables, tableType, tables.Keys - rest))
        decreases rest
      {
        var name :| name in rest;
        ghost var done := tables.Keys - rest;
        result := MarkTable(result, tables[name], tableType);
        MarkedTwice(tags0, SelectedKeys(tables, tableType, done),
                    if Selected(tables[name].tableType, tableType) then TableKeys(tables[name]) else {});
        SelectedKeysStep(tables, tableType, done, name);
        assert done + {name} == tables.Keys - (rest - {name});
        rest := rest - {name};
      }
      assert tables.Keys - rest == tables.Keys;
      result := MarkSeq(result, tags.includeKeys);
      MarkedTwice(tags0, SelectedKeys(tables, tableType, tables.Keys), ToSet(tags.includeKeys));
      MarkedOne(tags0, SelectedKeys(tables, tableType, tables.Keys) + ToSet(tags.includeKeys), "area");
      result := result["area" := true];
    }

    /**
     * `Mapping.ElementFilters`: compiles the filter list of every table;
     * only tables with at least one filter get an entry. It fails, with
     * the offending pattern, exactly when some regular expression of some
     * table does not compile.
     */
    method ElementFilters(re: RegexpEngine, orders: map<string, FilterOrder>)
      returns (r: Result<map<string, seq<ElementFilter>>, string>)
      requires forall n :: n in tables ==> ExcludeTagsWellFormed(tables[n])
      requires forall n :: n in tables && tables[n].filters.Some? ==> ValidFilterOrder(OrderOf(orders, n), tables[n].filters.value)
      ensures r.Ok? <==> forall n :: n in tables && tables[n].filters.Some? ==> PatternsCompile(tables[n].filters.value, re)
      ensures r.Err? ==> exists n :: n in tables && FiltersOf(tables, areas, orders, re, n) == Err(r.error)
      ensures r.Err? ==> !re.compiles(r.error)
      ensures r.Err? ==> exists n :: n in tables && tables[n].filters.Some? && ConfiguredPattern(tables[n].filters.value, r.error)
      ensures r.Ok? ==> forall n :: n in r.value ==> n in tables && FiltersOf(tables, areas, orders, re, n) == Ok(r.value[n])
      ensures r.Ok? ==> forall n :: n in tables && n !in r.value ==> FiltersOf(tables, areas, orders, re, n) == Ok([])
    {
      var areaTags: Option<set<Key>> := None;
      var linearTags: Option<set<Key>> := None;
      if areas.areaTags.Some? {
        var s := KeySet(areas.areaTags.value);
        areaTags := Some(s);
      }
      if areas.linearTags.Some? {
        var s := KeySet(areas.linearTags.value);
        linearTags := Some(s);
      }
      r := CompileTables(tables, areas, orders, re, areaTags, linearTags);
      forall n | n in tables
        ensures FiltersOf(tables, areas, orders, re, n).Ok? <==> (tables[n].filters.Some? ==> PatternsCompile(tables[n].filters.value, re))
      {
        FiltersOfOk(tables, areas, orders, re, n);
      }
      if r.Err? {
        var n :| n in tables && FiltersOf(tables, areas, orders, re, n) == Err(r.error);
        FiltersOfErr(tables, areas, orders, re, n);
      }
    }
  }
}
