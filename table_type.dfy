/**
 * Decoding a table's geometry kind from its JSON text: the six quoted kind
 * literals decode to their constant, everything else is an error.
 */
module TableTypeJson {
  import opened Wrappers
  import opened MappingTypes

  /** The JSON text of a kind: the name between double quotes. */
  function Quoted(t: TableType): string {
    "\"" + t + "\""
  }

  /** `TableType.UnmarshalJSON`: `data` holds the raw JSON bytes, one character per byte. */
  function UnmarshalJSON(data: string): (r: Result<TableType, string>)
    ensures r.Ok? ==> r.value in KnownTableTypes && data == Quoted(r.value)
    ensures data == "" ==> r == Err("missing table type")
    ensures data != "" && r.Err? ==> r == Err("unknown type " + data)
  {
    match data
    case "" => Err("missing table type")
    case "\"point\"" => Ok(PointTable)
    case "\"linestring\"" => Ok(LineStringTable)
    case "\"polygon\"" => Ok(PolygonTable)
    case "\"geometry\"" => Ok(GeometryTable)
    case "\"relation\"" => Ok(RelationTable)
    case "\"relation_member\"" => Ok(RelationMemberTable)
    case _ => Err("unknown type " + data)
  }

  /** Every known kind decodes from its quoted name to itself. */
  lemma DecodeQuotedKind(t: TableType)
    requires t in KnownTableTypes
    ensures UnmarshalJSON(Quoted(t)) == Ok(t)
  {
    if t == PointTable {
      assert Quoted(t) == "\"point\"";
    } else if t == LineStringTable {
      assert Quoted(t) == "\"linestring\"";
    } else if t == PolygonTable {
      assert Quoted(t) == "\"polygon\"";
    } else if t == GeometryTable {
      assert Quoted(t) == "\"geometry\"";
    } else if t == RelationTable {
      assert Quoted(t) == "\"relation\"";
    } else {
      assert Quoted(t) == "\"relation_member\"";
    }
  }

  /** Decoding succeeds exactly on the quoted names of the six kinds. */
  lemma DecodeSucceedsIff(data: string)
    ensures UnmarshalJSON(data).Ok? <==> exists t :: t in KnownTableTypes && data == Quoted(t)
  {
    if t :| t in KnownTableTypes && data == Quoted(t) {
      DecodeQuotedKind(t);
    }
  }

  /** Anything that is neither empty nor a quoted kind fails with "unknown type". */
  lemma DecodeUnknown(data: string)
    requires data != ""
    requires forall t :: t in KnownTableTypes ==> data != Quoted(t)
    ensures UnmarshalJSON(data) == Err("unknown type " + data)
  {
  }
}
