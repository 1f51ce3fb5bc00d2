/**
 * The data model shared by every table import: raw record values, the
 * column descriptor `ESEColumn` with its metatable form (`to_json`), the
 * statically declared tables (`SDTable`, `LinkTable`, `Datatable`) and the
 * record source, seen as plain values.
 */
module Columns {
  import opened Common

  type Byte = x: int | 0 <= x < 256

  /** The value of one field of a raw record, as the record source hands it over. */
  datatype Value = Null | Int(i: int) | Str(s: string) | Bytes(b: seq<Byte>)

  /** `ESEColumn(name, attname, type_, index)`: the storage name, the raw
      column name it comes from, the semantic type and the index hint. */
  datatype EseColumn = EseColumn(name: string, attname: string, colType: string, index: bool)

  // ---------------------------------------------------------------------
  // Metatable rows: ESEColumn.to_json
  // ---------------------------------------------------------------------

  datatype JsonValue = JStr(s: string) | JBool(b: bool)

  type JsonRow = map<string, JsonValue>

  const JsonKeys: set<string> := {"name", "attname", "type", "index"}

  /** The public attributes of the descriptor as a key/value row. */
  function ToJson(c: EseColumn): (row: JsonRow)
    ensures row.Keys == JsonKeys
  {
    map["name" := JStr(c.name), "attname" := JStr(c.attname),
        "type" := JStr(c.colType), "index" := JBool(c.index)]
  }

  /** Reads a metatable row back as a descriptor; `None` for a row of another shape. */
  function FromJson(row: JsonRow): Option<EseColumn> {
    if "name" in row && row["name"].JStr? && "attname" in row && row["attname"].JStr?
       && "type" in row && row["type"].JStr? && "index" in row && row["index"].JBool?
    then Some(EseColumn(row["name"].s, row["attname"].s, row["type"].s, row["index"].b))
    else None
  }

  /** catalog -> metatable -> catalog is lossless ... */
  lemma JsonRoundTrip(c: EseColumn)
    ensures FromJson(ToJson(c)) == Some(c)
  {
  }

  /** ... and a well-formed metatable row is the row of the descriptor it reads as. */
  lemma JsonRoundTripBack(row: JsonRow, c: EseColumn)
    requires row.Keys == JsonKeys && FromJson(row) == Some(c)
    ensures ToJson(c) == row
  {
    var r := ToJson(c);
    assert forall k :: k in row ==> k in r && r[k] == row[k];
  }

  // ---------------------------------------------------------------------
  // Statically declared tables
  // ---------------------------------------------------------------------

  /** One table kind: its name, its statically known columns and the indexes created on it. */
  datatype TableSpec = TableSpec(tableName: string, columns: seq<EseColumn>, indexes: seq<string>)

  datatype TableKind = SdTable | LinkTable | DataTable

  const SdTableSpec: TableSpec := TableSpec("sd_table", [
    EseColumn("sd_id", "sd_id", "Int", true),
    EseColumn("sd_hash", "sd_hash", "Binary", true),
    EseColumn("sd_refcount", "sd_refcount", "Int", true),
    EseColumn("sd_value", "sd_value", "SecurityDescriptor", false)
  ], [])

  const LinkTableSpec: TableSpec := TableSpec("link_table", [
    EseColumn("link_DNT", "link_DNT", "Int", true),
    EseColumn("backlink_DNT", "backlink_DNT", "Int", true),
    EseColumn("link_base", "link_base", "Int", true),
    EseColumn("link_deactivetime", "link_deactivetime", "Timestamp", true),
    EseColumn("link_deltime", "link_deltime", "Timestamp", true),
    EseColumn("link_usnchanged", "link_usnchanged", "Int", true),
    EseColumn("link_ncdnt", "link_ncdnt", "Int", true),
    EseColumn("link_metadata", "link_metadata", "Binary", true),
    EseColumn("link_data", "link_data", "Binary", true),
    EseColumn("link_ndesc", "link_ndesc", "Text", true)
  ], [])

  const DatatableSpec: TableSpec := TableSpec("datatable", [
    EseColumn("DNT_col", "DNT_col", "Int", true),
    EseColumn("PDNT_col", "PDNT_col", "Int", true),
    EseColumn("time_col", "time_col", "Timestamp", true),
    EseColumn("objectSid", "ATTr589970", "SID", true),
    EseColumn("objectGUID", "ATTk589826", "GUID", true),
    EseColumn("schemaIDGUID", "ATTk589972", "GUID", true),
    EseColumn("Ancestors_col", "Ancestors_col", "Ancestors", true),
    EseColumn("userAccountControl", "ATTj589832", "UserAccountControl", false)
  ], ["rightsGuid"])

  function Spec(kind: TableKind): TableSpec {
    match kind
    case SdTable => SdTableSpec
    case LinkTable => LinkTableSpec
    case DataTable => DatatableSpec
  }

  /** The three kinds have three different table names, none of them a metatable name. */
  lemma TableNamesDistinct(k1: TableKind, k2: TableKind)
    ensures k1 != k2 ==> Spec(k1).tableName != Spec(k2).tableName
    ensures Spec(k1).tableName != Spec(k2).tableName + "_meta"
  {
  }

  predicate DistinctAttnames(cols: seq<EseColumn>) {
    forall i, j :: 0 <= i < j < |cols| ==> cols[i].attname != cols[j].attname
  }

  /** `attname2col = {col.attname: col for col in _columns_}` (a later column wins). */
  function AttnameMap(cols: seq<EseColumn>): (m: map<string, EseColumn>)
    ensures m.Keys == set c | c in cols :: c.attname
    ensures forall a :: a in m ==> m[a] in cols && m[a].attname == a
  {
    if cols == [] then map[]
    else
      var last := cols[|cols| - 1];
      var m := AttnameMap(cols[..|cols| - 1]);
      assert cols == cols[..|cols| - 1] + [last];
      m[last.attname := last]
  }

  /** With distinct attribute names every static column is found under its own name. */
  lemma {:induction false} AttnameMapFindsEachColumn(cols: seq<EseColumn>, i: nat)
    requires DistinctAttnames(cols) && i < |cols|
    ensures cols[i].attname in AttnameMap(cols) && AttnameMap(cols)[cols[i].attname] == cols[i]
    decreases |cols|
  {
    if i < |cols| - 1 {
      AttnameMapFindsEachColumn(cols[..|cols| - 1], i);
    }
  }

  lemma StaticColumnsDistinct(kind: TableKind)
    ensures DistinctAttnames(Spec(kind).columns)
  {
  }

  // ---------------------------------------------------------------------
  // The record source
  // ---------------------------------------------------------------------

  /** One table of the ESE database: its raw column names in order and its records. */
  datatype EseTable = EseTable(columns: seq<string>, records: seq<seq<Value>>)

  /** `esedb[name]` for every table name the file holds. */
  type EseDb = map<string, EseTable>
}
