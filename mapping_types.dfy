/**
 * The data model of a tag-mapping configuration: tag keys and values, the
 * ordered key/value blocks, destination tables, and the table, filter and
 * mapping records that the YAML document decodes into.
 */
module MappingTypes {
  import opened Wrappers

  /** The name of a tag. */
  type Key = string
  /** The value of a tag. */
  type Value = string

  /** The tags carried by one element: key to value. */
  type ElementTags = map<string, string>

  /** A configured value together with its position in the block it was declared in. */
  datatype OrderedValue = OrderedValue(value: Value, order: int)

  /** A key/value block: each key maps to its values in declaration order. A nil map is the empty map. */
  type KeyValues = map<Key, seq<OrderedValue>>

  /** A block of regular expressions, one per key. */
  type KeyRegexpValue = map<Key, string>

  /** The values configured for `k`, empty when `k` is not configured. */
  function Values(kv: KeyValues, k: Key): (vals: seq<OrderedValue>)
    ensures k !in kv ==> vals == []
    ensures k in kv ==> vals == kv[k]
  {
    if k in kv then kv[k] else []
  }

  /** A routing target: a table, optionally inside one of its named sub-mappings ("" for none). */
  datatype DestTable = DestTable(name: string, subMapping: string)

  /** A routing target together with the order of the configured value that produced it. */
  datatype OrderedDestTable = OrderedDestTable(table: DestTable, order: int)

  /** The geometry kind of a table. It is a plain string, as in the YAML document. */
  type TableType = string

  const PolygonTable: TableType := "polygon"
  const LineStringTable: TableType := "linestring"
  const PointTable: TableType := "point"
  const GeometryTable: TableType := "geometry"
  const RelationTable: TableType := "relation"
  const RelationMemberTable: TableType := "relation_member"

  /** The six geometry kinds the configuration format defines. */
  const KnownTableTypes: set<TableType> :=
    {PolygonTable, LineStringTable, PointTable, GeometryTable, RelationTable, RelationMemberTable}

  /** A table of kind `t` takes part in building the artefacts for kind `tableType`. */
  predicate Selected(t: TableType, tableType: TableType) {
    t == GeometryTable || t == tableType
  }

  /** A column definition. Its `args` map is not modelled. */
  datatype Field = Field(name: string, key: Key, keys: seq<Key>, fieldType: string, fromMember: bool)

  /** A named sub-mapping of a table. */
  datatype SubMapping = SubMapping(mapping: KeyValues)

  /** The geometry-kind specific mapping blocks of a table. */
  datatype TypeMappings = TypeMappings(points: KeyValues, lineStrings: KeyValues, polygons: KeyValues)

  /** The filters of a table; `excludeTags` is the deprecated list of [key, value] pairs. */
  datatype Filters = Filters(
    excludeTags: Option<seq<seq<string>>>,
    reject: KeyValues,
    require: KeyValues,
    rejectRegexp: KeyRegexpValue,
    requireRegexp: KeyRegexpValue)

  /** A table definition. `fields` are the columns, `oldFields` the deprecated `fields` list. */
  datatype Table = Table(
    name: string,
    tableType: TableType,
    mapping: KeyValues,
    mappings: map<string, SubMapping>,
    typeMappings: TypeMappings,
    fields: seq<Field>,
    oldFields: Option<seq<Field>>,
    filters: Option<Filters>)

  /** A generalized (simplified) table. Its tolerance is not modelled. */
  datatype GeneralizedTable = GeneralizedTable(name: string, sourceTableName: string, sqlFilter: string)

  /** The area/linear hints; a nil list differs from an empty one. */
  datatype Areas = Areas(areaTags: Option<seq<Key>>, linearTags: Option<seq<Key>>)

  /** The global tag policy. */
  datatype Tags = Tags(loadAll: bool, excludeKeys: seq<Key>, includeKeys: seq<Key>)

  /**
   * `order` lists every element of `keys` exactly once: one of the orders in
   * which Go's `range` may visit the keys of a map.
   */
  ghost predicate IsEnumeration<K(!new)>(order: seq<K>, keys: set<K>) {
    && (forall i, j :: 0 <= i < j < |order| ==> order[i] != order[j])
    && (forall x :: x in order <==> x in keys)
  }

  /** The elements of a list, as Go collects them into a `map[Key]struct{}` or `map[Key]bool`. */
  function ToSet(s: seq<Key>): (r: set<Key>)
    ensures forall x :: x in r <==> x in s
  {
    set x | x in s
  }

  lemma ToSetSnoc(s: seq<Key>, x: Key)
    ensures ToSet(s + [x]) == ToSet(s) + {x}
  {
  }

  lemma Assoc<T>(a: seq<T>, b: seq<T>, c: seq<T>)
    ensures a + b + c == a + (b + c)
  {
  }
}
