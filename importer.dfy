/**
 * `ESETable.create` and `ESETable.parse_file`: importing one ESE table into
 * the backend, with its companion `<table>_meta` table describing the
 * columns. A user interrupt is the signal arriving just before a given
 * record is inserted.
 */
module Importer {
  import opened Common
  import opened Columns
  import opened Catalog
  import opened Schema
  import opened Storage

  datatype TableOutcome = Imported | Interrupted | Failed(error: Error)

  /** The columns `identify_columns` finds for a table of the given kind:
      the data table resolves its names through the schema rows, the other
      two use the static lookup. */
  function CatalogOf(kind: TableKind, t: EseTable): Result<seq<EseColumn>, Error> {
    if kind == DataTable then DatatableCatalog(t) else Ok(StaticCatalog(Spec(kind), t.columns))
  }

  method IdentifyColumnsOf(kind: TableKind, t: EseTable) returns (r: Result<seq<EseColumn>, Error>)
    ensures r == CatalogOf(kind, t)
  {
    if kind == DataTable {
      r := IdentifyDatatableColumns(t);
    } else {
      var columns := IdentifyColumns(Spec(kind), t);
      r := Ok(columns);
    }
  }

  /** Whether the interrupt lands inside the record loop. */
  predicate InterruptedAt(t: EseTable, interruptAt: Option<nat>) {
    interruptAt.Some? && interruptAt.value < |t.records|
  }

  /** How many records reach the backend before the loop ends. */
  function Streamed(t: EseTable, interruptAt: Option<nat>): (n: nat)
    ensures n <= |t.records|
  {
    if InterruptedAt(t, interruptAt) then interruptAt.value else |t.records|
  }

  function IndexOps(table: string, indexes: seq<string>): seq<Op> {
    seq(|indexes|, i requires 0 <= i < |indexes| => CreateIndex(table, indexes[i]))
  }

  function InsertOps(table: string, records: seq<seq<Value>>): seq<Op> {
    seq(|records|, i requires 0 <= i < |records| => InsertFields(table, records[i]))
  }

  function MetaOps(metatable: string, columns: seq<EseColumn>): seq<Op> {
    seq(|columns|, i requires 0 <= i < |columns| => Insert(metatable, ToJson(columns[i])))
  }

  /** The loading half of `create`: both tables opened, the columns
      declared, the indexes created, the records streamed in. */
  function LoadOps(tn: string, cat: seq<EseColumn>, indexes: seq<string>, records: seq<seq<Value>>): seq<Op> {
    [OpenTable(tn + "_meta"), OpenTable(tn), CreateFields(tn, cat)] + IndexOps(tn, indexes) + InsertOps(tn, records)
  }

  /** The closing half of `create`: the row count entry and the metatable. */
  function MetaOpsLogged(tn: string, total: nat, cat: seq<EseColumn>): seq<Op> {
    [Audit(EndImport(tn, total)), Audit(StartMetatable(tn))] + MetaOps(tn + "_meta", cat) + [Audit(EndMetatable(tn))]
  }

  /** What follows the record loop: nothing after an interrupt. */
  function ClosingOps(tn: string, cat: seq<EseColumn>, t: EseTable, prior: nat, interruptAt: Option<nat>): seq<Op> {
    if InterruptedAt(t, interruptAt) then [] else MetaOpsLogged(tn, prior + |t.records|, cat)
  }

  /** What `create` asks of the backend once the columns are identified
      (or not), given the number of rows the destination held before. */
  function ImportOps(tn: string, indexes: seq<string>, identified: Result<seq<EseColumn>, Error>,
                     t: EseTable, prior: nat, interruptAt: Option<nat>): seq<Op> {
    match identified
    case Err(_) => []
    case Ok(cat) =>
      LoadOps(tn, cat, indexes, t.records[..Streamed(t, interruptAt)]) + ClosingOps(tn, cat, t, prior, interruptAt)
  }

  /** Everything `create` asks of the backend for a table named `tn`
      with the given indexes, once identification has given `identified`. */
  function CreateOpsFrom(tn: string, indexes: seq<string>, identified: Result<seq<EseColumn>, Error>,
                         t: EseTable, prior: nat, interruptAt: Option<nat>): seq<Op> {
    [Audit(StartImport(tn))] + ImportOps(tn, indexes, identified, t, prior, interruptAt)
  }

  /** Everything `create` asks of the backend. */
  function CreateOps(kind: TableKind, t: EseTable, prior: nat, interruptAt: Option<nat>): seq<Op> {
    CreateOpsFrom(Spec(kind).tableName, Spec(kind).indexes, CatalogOf(kind, t), t, prior, interruptAt)
  }

  function OutcomeOf(identified: Result<seq<EseColumn>, Error>, t: EseTable, interruptAt: Option<nat>): TableOutcome {
    match identified
    case Err(e) => Failed(e)
    case Ok(_) => if InterruptedAt(t, interruptAt) then Interrupted else Imported
  }

  function CreateOutcome(kind: TableKind, t: EseTable, interruptAt: Option<nat>): TableOutcome {
    OutcomeOf(CatalogOf(kind, t), t, interruptAt)
  }

  /** Rows reach a table only through `insert_fields` calls naming it. */
  lemma {:induction false} RowsInsertedOfInsertOps(table: string, records: seq<seq<Value>>)
    ensures RowsInserted(InsertOps(table, records), table) == records
    decreases |records|
  {
    if records != [] {
      assert InsertOps(table, records)[1..] == InsertOps(table, records[1..]);
      RowsInsertedOfInsertOps(table, records[1..]);
    }
  }

  lemma {:induction false} RowsInsertedWithoutInserts(ops: seq<Op>, table: string)
    requires forall i :: 0 <= i < |ops| ==> !ops[i].InsertFields?
    ensures RowsInserted(ops, table) == []
    decreases |ops|
  {
    if ops != [] {
      RowsInsertedWithoutInserts(ops[1..], table);
    }
  }

  lemma {:induction false} RowsStoredWithoutStores(ops: seq<Op>, table: string)
    requires forall i :: 0 <= i < |ops| ==> !ops[i].Insert?
    ensures RowsStored(ops, table) == []
    decreases |ops|
  {
    if ops != [] {
      RowsStoredWithoutStores(ops[1..], table);
    }
  }

  lemma {:induction false} RowsStoredOfMetaOps(metatable: string, columns: seq<EseColumn>)
    ensures RowsStored(MetaOps(metatable, columns), metatable)
      == seq(|columns|, i requires 0 <= i < |columns| => ToJson(columns[i]))
    decreases |columns|
  {
    if columns != [] {
      assert MetaOps(metatable, columns)[1..] == MetaOps(metatable, columns[1..]);
      RowsStoredOfMetaOps(metatable, columns[1..]);
    }
  }

  /** The rows of a table after the loading half of `create`: what it held
      before, then the streamed records. */
  lemma LoadedRows(ops: seq<Op>, tn: string, cat: seq<EseColumn>, indexes: seq<string>, records: seq<seq<Value>>)
    ensures RowsInserted(ops + LoadOps(tn, cat, indexes, records), tn) == RowsInserted(ops, tn) + records
  {
    var head := [OpenTable(tn + "_meta"), OpenTable(tn), CreateFields(tn, cat)];
    assert ops + LoadOps(tn, cat, indexes, records) == ops + head + IndexOps(tn, indexes) + InsertOps(tn, records);
    RowsInsertedWithoutInserts(head, tn);
    RowsInsertedWithoutInserts(IndexOps(tn, indexes), tn);
    RowsInsertedOfInsertOps(tn, records);
    RowsInsertedAppend(ops, head, tn);
    RowsInsertedAppend(ops + head, IndexOps(tn, indexes), tn);
    RowsInsertedAppend(ops + head + IndexOps(tn, indexes), InsertOps(tn, records), tn);
  }

  /** `parse_file`: insert the records in order until the interrupt. */
  method ParseFile(b: Backend, tn: string, t: EseTable, interruptAt: Option<nat>) returns (interrupted: bool)
    modifies b
    ensures interrupted == InterruptedAt(t, interruptAt)
    ensures b.ops == old(b.ops) + InsertOps(tn, t.records[..Streamed(t, interruptAt)])
  {
    var i := 0;
    while i < |t.records|
      invariant 0 <= i <= Streamed(t, interruptAt)
      invariant b.ops == old(b.ops) + InsertOps(tn, t.records[..i])
    {
      if interruptAt == Some(i) {
        return true;
      }
      assert t.records[..i + 1] == t.records[..i] + [t.records[i]];
      b.InsertFields(tn, t.records[i]);
      i := i + 1;
    }
    assert t.records[..i] == t.records;
    return false;
  }

  method CreateIndexes(b: Backend, tn: string, indexes: seq<string>)
    modifies b
    ensures b.ops == old(b.ops) + IndexOps(tn, indexes)
  {
    var j := 0;
    while j < |indexes|
      invariant 0 <= j <= |indexes|
      invariant b.ops == old(b.ops) + IndexOps(tn, indexes[..j])
    {
      assert indexes[..j + 1] == indexes[..j] + [indexes[j]];
      b.CreateIndex(tn, indexes[j]);
      j := j + 1;
    }
    assert indexes[..j] == indexes;
  }

  /** The metatable: one `to_json` row per column, in catalog order. */
  method FillMetatable(b: Backend, metatable: string, columns: seq<EseColumn>)
    modifies b
    ensures b.ops == old(b.ops) + MetaOps(metatable, columns)
  {
    var k := 0;
    while k < |columns|
      invariant 0 <= k <= |columns|
      invariant b.ops == old(b.ops) + MetaOps(metatable, columns[..k])
    {
      assert columns[..k + 1] == columns[..k] + [columns[k]];
      b.Insert(metatable, ToJson(columns[k]));
      k := k + 1;
    }
    assert columns[..k] == columns;
  }

  /** The loading half of `create`, ending early on an interrupt. */
  method Load(b: Backend, tn: string, cat: seq<EseColumn>, indexes: seq<string>, t: EseTable, interruptAt: Option<nat>)
    returns (interrupted: bool)
    modifies b
    ensures interrupted == InterruptedAt(t, interruptAt)
    ensures b.ops == old(b.ops) + LoadOps(tn, cat, indexes, t.records[..Streamed(t, interruptAt)])
  {
    b.OpenTable(tn + "_meta");
    b.OpenTable(tn);
    b.CreateFields(tn, cat);
    CreateIndexes(b, tn, indexes);
    interrupted := ParseFile(b, tn, t, interruptAt);
  }

  /** The closing half of `create`. */
  method FinishImport(b: Backend, tn: string, count: nat, columns: seq<EseColumn>)
    modifies b
    ensures b.ops == old(b.ops) + MetaOpsLogged(tn, count, columns)
  {
    b.Audit(EndImport(tn, count));
    b.Audit(StartMetatable(tn));
    FillMetatable(b, tn + "_meta", columns);
    b.Audit(EndMetatable(tn));
  }

  /** `create` after its columns were identified as `cat`. */
  method ImportCatalogued(b: Backend, tn: string, indexes: seq<string>, cat: seq<EseColumn>,
                          t: EseTable, interruptAt: Option<nat>)
    returns (interrupted: bool)
    modifies b
    ensures interrupted == InterruptedAt(t, interruptAt)
    ensures b.ops == old(b.ops) + LoadOps(tn, cat, indexes, t.records[..Streamed(t, interruptAt)])
                     + ClosingOps(tn, cat, t, |RowsInserted(old(b.ops), tn)|, interruptAt)
  {
    ghost var records := t.records[..Streamed(t, interruptAt)];
    interrupted := Load(b, tn, cat, indexes, t, interruptAt);
    if interrupted {
      return;
    }
    ghost var loaded := b.ops;
    LoadedRows(old(b.ops), tn, cat, indexes, records);
    var count := b.Count(tn);
    assert count == |RowsInserted(old(b.ops), tn)| + |t.records|;
    FinishImport(b, tn, count, cat);
    assert b.ops == loaded + ClosingOps(tn, cat, t, |RowsInserted(old(b.ops), tn)|, interruptAt);
  }

  /** The part of `create` after `identify_columns`. */
  method ImportIdentified(b: Backend, tn: string, indexes: seq<string>, identified: Result<seq<EseColumn>, Error>,
                          t: EseTable, interruptAt: Option<nat>)
    returns (interrupted: bool)
    modifies b
    ensures identified.Ok? ==> interrupted == InterruptedAt(t, interruptAt)
    ensures b.ops == old(b.ops) + ImportOps(tn, indexes, identified, t, |RowsInserted(old(b.ops), tn)|, interruptAt)
  {
    if identified.Err? {
      return false;
    }
    interrupted := ImportCatalogued(b, tn, indexes, identified.value, t, interruptAt);
  }

  /** `create` once its columns are identified (identification reads only
      the ESE table, so it may as well come first). */
  method CreateIdentified(b: Backend, tn: string, indexes: seq<string>, t: EseTable, interruptAt: Option<nat>,
                          identified: Result<seq<EseColumn>, Error>) returns (outcome: TableOutcome)
    modifies b
    ensures b.ops == old(b.ops) + CreateOpsFrom(tn, indexes, identified, t, |RowsInserted(old(b.ops), tn)|, interruptAt)
    ensures outcome == OutcomeOf(identified, t, interruptAt)
  {
    ghost var prior := |RowsInserted(b.ops, tn)|;
    b.Audit(StartImport(tn));
    RowsInsertedAppend(old(b.ops), [Audit(StartImport(tn))], tn);
    ghost var started := b.ops;
    var interrupted := ImportIdentified(b, tn, indexes, identified, t, interruptAt);
    assert b.ops == started + ImportOps(tn, indexes, identified, t, prior, interruptAt);
    if identified.Err? {
      outcome := Failed(identified.error);
    } else if interrupted {
      outcome := Interrupted;
    } else {
      outcome := Imported;
    }
  }

  /** `create`. A failure to identify the columns leaves after the opening
      audit entry; an interrupt leaves after the last inserted record. */
  method Create(b: Backend, kind: TableKind, t: EseTable, interruptAt: Option<nat>) returns (outcome: TableOutcome)
    modifies b
    ensures b.ops == old(b.ops) + CreateOps(kind, t, |RowsInserted(old(b.ops), Spec(kind).tableName)|, interruptAt)
    ensures outcome == CreateOutcome(kind, t, interruptAt)
  {
    var identified := IdentifyColumnsOf(kind, t);
    outcome := CreateIdentified(b, Spec(kind).tableName, Spec(kind).indexes, t, interruptAt, identified);
  }

  /** Identification yields one descriptor per ESE column, whatever the kind. */
  lemma CatalogCoversColumns(kind: TableKind, t: EseTable)
    ensures CatalogOf(kind, t).Ok? ==> |CatalogOf(kind, t).value| == |t.columns|
  {
  }

  /** The three stretches of a successful `create`. */
  lemma CreateOpsShape(tn: string, indexes: seq<string>, cat: seq<EseColumn>, t: EseTable, prior: nat,
                       interruptAt: Option<nat>)
    ensures CreateOpsFrom(tn, indexes, Ok(cat), t, prior, interruptAt)
      == ([Audit(StartImport(tn))] + LoadOps(tn, cat, indexes, t.records[..Streamed(t, interruptAt)]))
         + ClosingOps(tn, cat, t, prior, interruptAt)
  {
  }

  predicate Declares(op: Op) { op.CreateFields? || op.CreateIndex? }

  lemma ClosingOpsDeclareAndInsertNothing(tn: string, cat: seq<EseColumn>, t: EseTable, prior: nat, interruptAt: Option<nat>)
    ensures forall op :: op in ClosingOps(tn, cat, t, prior, interruptAt) ==> !op.InsertFields? && !Declares(op)
  {
  }

  lemma InsertOpsDeclareNothing(tn: string, records: seq<seq<Value>>)
    ensures forall op :: op in InsertOps(tn, records) ==> !Declares(op)
  {
  }

  lemma LoadOpsSplit(tn: string, cat: seq<EseColumn>, indexes: seq<string>, records: seq<seq<Value>>)
    ensures var declared := [OpenTable(tn + "_meta"), OpenTable(tn), CreateFields(tn, cat)] + IndexOps(tn, indexes);
      && LoadOps(tn, cat, indexes, records) == declared + InsertOps(tn, records)
      && forall op :: op in declared ==> !op.InsertFields?
  {
  }

  /** In `a + b`, when `a` inserts nothing and `b` declares nothing, every
      declaration precedes every insertion. */
  lemma DeclarationsFirst(a: seq<Op>, b: seq<Op>)
    requires forall op :: op in a ==> !op.InsertFields?
    requires forall op :: op in b ==> !Declares(op)
    ensures forall i, j :: 0 <= i < |a + b| && 0 <= j < |a + b| && Declares((a + b)[i]) && (a + b)[j].InsertFields? ==> i < j
  {
  }

  lemma {:induction false} RowsInsertedOfInsertOpsElsewhere(tn: string, records: seq<seq<Value>>, table: string)
    requires table != tn
    ensures RowsInserted(InsertOps(tn, records), table) == []
    decreases |records|
  {
    if records != [] {
      assert InsertOps(tn, records)[1..] == InsertOps(tn, records[1..]);
      RowsInsertedOfInsertOpsElsewhere(tn, records[1..], table);
    }
  }

  /** What a successful `create` inserts, table by table. */
  lemma CreateRowsByTable(tn: string, indexes: seq<string>, cat: seq<EseColumn>,
                          t: EseTable, prior: nat, interruptAt: Option<nat>, table: string)
    ensures RowsInserted(CreateOpsFrom(tn, indexes, Ok(cat), t, prior, interruptAt), table)
      == if table == tn then t.records[..Streamed(t, interruptAt)] else []
  {
    var start := [Audit(StartImport(tn))];
    var records := t.records[..Streamed(t, interruptAt)];
    var declared := [OpenTable(tn + "_meta"), OpenTable(tn), CreateFields(tn, cat)] + IndexOps(tn, indexes);
    var load := LoadOps(tn, cat, indexes, records);
    var tail := ClosingOps(tn, cat, t, prior, interruptAt);
    CreateOpsShape(tn, indexes, cat, t, prior, interruptAt);
    LoadOpsSplit(tn, cat, indexes, records);
    ClosingOpsDeclareAndInsertNothing(tn, cat, t, prior, interruptAt);
    RowsInsertedWithoutInserts(start, table);
    RowsInsertedWithoutInserts(declared, table);
    RowsInsertedWithoutInserts(tail, table);
    if table == tn {
      RowsInsertedOfInsertOps(tn, records);
    } else {
      RowsInsertedOfInsertOpsElsewhere(tn, records, table);
    }
    RowsInsertedAppend(declared, InsertOps(tn, records), table);
    RowsInsertedAppend(start, load, table);
    RowsInsertedAppend(start + load, tail, table);
  }

  /** The destination table receives the ESE records verbatim and in order:
      all of them, or those before the interrupt; none when identification
      failed. The metatable receives no `insert_fields` rows. */
  lemma CreateStoresTheRecords(tn: string, indexes: seq<string>, identified: Result<seq<EseColumn>, Error>,
                               t: EseTable, prior: nat, interruptAt: Option<nat>)
    ensures var ops := CreateOpsFrom(tn, indexes, identified, t, prior, interruptAt);
      && RowsInserted(ops, tn) == (if identified.Ok? then t.records[..Streamed(t, interruptAt)] else [])
      && (identified.Ok? && !InterruptedAt(t, interruptAt) ==> RowsInserted(ops, tn) == t.records)
      && RowsInserted(ops, tn + "_meta") == []
  {
    MetaIsAnotherTable(tn);
    if identified.Ok? {
      CreateRowsByTable(tn, indexes, identified.value, t, prior, interruptAt, tn);
      CreateRowsByTable(tn, indexes, identified.value, t, prior, interruptAt, tn + "_meta");
      assert t.records[..|t.records|] == t.records;
    } else {
      var start := [Audit(StartImport(tn))];
      assert CreateOpsFrom(tn, indexes, identified, t, prior, interruptAt) == start;
      RowsInsertedWithoutInserts(start, tn);
      RowsInsertedWithoutInserts(start, tn + "_meta");
    }
  }

  /** `create` inserts records into its own table and into no other. */
  lemma CreateRowsElsewhere(tn: string, indexes: seq<string>, identified: Result<seq<EseColumn>, Error>,
                            t: EseTable, prior: nat, interruptAt: Option<nat>, table: string)
    requires table != tn
    ensures RowsInserted(CreateOpsFrom(tn, indexes, identified, t, prior, interruptAt), table) == []
  {
    if identified.Ok? {
      CreateRowsByTable(tn, indexes, identified.value, t, prior, interruptAt, table);
    } else {
      var start := [Audit(StartImport(tn))];
      assert CreateOpsFrom(tn, indexes, identified, t, prior, interruptAt) == start;
      RowsInsertedWithoutInserts(start, table);
    }
  }

  /** Importing one kind of table leaves the rows of the other two kinds,
      and of every metatable, untouched. */
  lemma CreateLeavesOtherTablesAlone(kind: TableKind, other: TableKind, t: EseTable, prior: nat, interruptAt: Option<nat>)
    ensures kind != other ==> RowsInserted(CreateOps(kind, t, prior, interruptAt), Spec(other).tableName) == []
    ensures RowsInserted(CreateOps(kind, t, prior, interruptAt), Spec(other).tableName + "_meta") == []
  {
    TableNamesDistinct(kind, other);
    TableNamesDistinct(other, kind);
    var tn := Spec(kind).tableName;
    if kind != other {
      CreateRowsElsewhere(tn, Spec(kind).indexes, CatalogOf(kind, t), t, prior, interruptAt, Spec(other).tableName);
    }
    CreateRowsElsewhere(tn, Spec(kind).indexes, CatalogOf(kind, t), t, prior, interruptAt, Spec(other).tableName + "_meta");
  }

  lemma MetaIsAnotherTable(tn: string)
    ensures tn + "_meta" != tn
  {
    assert |tn + "_meta"| != |tn|;
  }

  lemma MetatableRows(tn: string, total: nat, cat: seq<EseColumn>)
    ensures RowsStored(MetaOpsLogged(tn, total, cat), tn + "_meta")
      == seq(|cat|, i requires 0 <= i < |cat| => ToJson(cat[i]))
  {
    var head := [Audit(EndImport(tn, total)), Audit(StartMetatable(tn))];
    var meta := MetaOps(tn + "_meta", cat);
    var last := [Audit(EndMetatable(tn))];
    RowsStoredWithoutStores(head, tn + "_meta");
    RowsStoredWithoutStores(last, tn + "_meta");
    RowsStoredOfMetaOps(tn + "_meta", cat);
    RowsStoredAppend(head, meta, tn + "_meta");
    RowsStoredAppend(head + meta, last, tn + "_meta");
  }

  lemma LoadOpsStoreNothing(tn: string, cat: seq<EseColumn>, indexes: seq<string>, records: seq<seq<Value>>)
    ensures forall i :: 0 <= i < |LoadOps(tn, cat, indexes, records)| ==> !LoadOps(tn, cat, indexes, records)[i].Insert?
  {
  }

  lemma CreateStoredRows(tn: string, indexes: seq<string>, cat: seq<EseColumn>,
                         t: EseTable, prior: nat, interruptAt: Option<nat>)
    ensures RowsStored(CreateOpsFrom(tn, indexes, Ok(cat), t, prior, interruptAt), tn + "_meta")
      == if InterruptedAt(t, interruptAt) then [] else seq(|cat|, i requires 0 <= i < |cat| => ToJson(cat[i]))
  {
    var start := [Audit(StartImport(tn))];
    var load := LoadOps(tn, cat, indexes, t.records[..Streamed(t, interruptAt)]);
    var tail := ClosingOps(tn, cat, t, prior, interruptAt);
    CreateOpsShape(tn, indexes, cat, t, prior, interruptAt);
    RowsStoredWithoutStores(start, tn + "_meta");
    LoadOpsStoreNothing(tn, cat, indexes, t.records[..Streamed(t, interruptAt)]);
    RowsStoredWithoutStores(load, tn + "_meta");
    RowsStoredAppend(start, load, tn + "_meta");
    RowsStoredAppend(start + load, tail, tn + "_meta");
    if InterruptedAt(t, interruptAt) {
      assert tail == [];
    } else {
      MetatableRows(tn, prior + |t.records|, cat);
    }
  }

  /** Rows written by `to_json`, one per column, read back as those columns. */
  lemma MetaRowsReadBack(stored: seq<JsonRow>, cat: seq<EseColumn>)
    requires stored == seq(|cat|, i requires 0 <= i < |cat| => ToJson(cat[i]))
    ensures |stored| == |cat| && forall i :: 0 <= i < |cat| ==> stored[i] == ToJson(cat[i]) && FromJson(stored[i]) == Some(cat[i])
  {
    forall i | 0 <= i < |cat| ensures FromJson(ToJson(cat[i])) == Some(cat[i]) {
      JsonRoundTrip(cat[i]);
    }
  }

  /** After an uninterrupted import the metatable holds one `to_json` row per
      identified column, in order, each reading back as that column;
      otherwise it holds nothing. */
  lemma CreateMetatableDescribesCatalog(tn: string, indexes: seq<string>, identified: Result<seq<EseColumn>, Error>,
                                        t: EseTable, prior: nat, interruptAt: Option<nat>)
    ensures var stored := RowsStored(CreateOpsFrom(tn, indexes, identified, t, prior, interruptAt), tn + "_meta");
      if identified.Ok? && !InterruptedAt(t, interruptAt) then
        var cat := identified.value;
        |stored| == |cat| && forall i :: 0 <= i < |cat| ==> stored[i] == ToJson(cat[i]) && FromJson(stored[i]) == Some(cat[i])
      else stored == []
  {
    if identified.Ok? {
      CreateStoredRows(tn, indexes, identified.value, t, prior, interruptAt);
      if !InterruptedAt(t, interruptAt) {
        MetaRowsReadBack(RowsStored(CreateOpsFrom(tn, indexes, identified, t, prior, interruptAt), tn + "_meta"),
                         identified.value);
      }
    } else {
      var start := [Audit(StartImport(tn))];
      assert CreateOpsFrom(tn, indexes, identified, t, prior, interruptAt) == start;
      RowsStoredWithoutStores(start, tn + "_meta");
    }
  }

  /** When every ESE record carries one value per column and identification
      gave one descriptor per column, every row `create` inserts into the
      table is as wide as the column list it declared. */
  lemma CreateRowsFitTheCatalog(tn: string, indexes: seq<string>, cat: seq<EseColumn>,
                                t: EseTable, prior: nat, interruptAt: Option<nat>)
    requires forall r :: r in t.records ==> |r| == |t.columns|
    requires |cat| == |t.columns|
    ensures forall r :: r in RowsInserted(CreateOpsFrom(tn, indexes, Ok(cat), t, prior, interruptAt), tn) ==> |r| == |cat|
  {
    CreateStoresTheRecords(tn, indexes, Ok(cat), t, prior, interruptAt);
    var records := t.records[..Streamed(t, interruptAt)];
    assert forall r :: r in records ==> r in t.records;
  }

  /** The import announces itself first; the table's columns and indexes
      are declared before any record is inserted; and a failed
      identification touches no table at all. */
  lemma CreateDeclaresBeforeInserting(tn: string, indexes: seq<string>, identified: Result<seq<EseColumn>, Error>,
                                      t: EseTable, prior: nat, interruptAt: Option<nat>)
    ensures var ops := CreateOpsFrom(tn, indexes, identified, t, prior, interruptAt);
      && ops[0] == Audit(StartImport(tn))
      && (forall i, j :: 0 <= i < |ops| && 0 <= j < |ops| && Declares(ops[i]) && ops[j].InsertFields? ==> i < j)
      && (identified.Err? ==> ops == [Audit(StartImport(tn))])
  {
    if identified.Ok? {
      var cat := identified.value;
      var records := t.records[..Streamed(t, interruptAt)];
      var declared := [OpenTable(tn + "_meta"), OpenTable(tn), CreateFields(tn, cat)] + IndexOps(tn, indexes);
      var tail := ClosingOps(tn, cat, t, prior, interruptAt);
      CreateOpsShape(tn, indexes, cat, t, prior, interruptAt);
      LoadOpsSplit(tn, cat, indexes, records);
      ClosingOpsDeclareAndInsertNothing(tn, cat, t, prior, interruptAt);
      InsertOpsDeclareNothing(tn, records);
      assert CreateOpsFrom(tn, indexes, identified, t, prior, interruptAt)
          == ([Audit(StartImport(tn))] + declared) + (InsertOps(tn, records) + tail);
      DeclarationsFirst([Audit(StartImport(tn))] + declared, InsertOps(tn, records) + tail);
    }
  }

  /** An interrupt truncates the backend's work: what `create` did up to
      the signal is a prefix of what it would have done without it. */
  lemma CreateInterruptedIsPrefix(tn: string, indexes: seq<string>, identified: Result<seq<EseColumn>, Error>,
                                  t: EseTable, prior: nat, k: nat)
    ensures CreateOpsFrom(tn, indexes, identified, t, prior, Some(k)) <= CreateOpsFrom(tn, indexes, identified, t, prior, None)
  {
    if identified.Ok? && k < |t.records| {
      var full := InsertOps(tn, t.records);
      assert InsertOps(tn, t.records[..k]) == full[..k];
      assert t.records[..Streamed(t, None)] == t.records;
    }
  }

  /** `create` never commits nor post-processes: those belong to the job. */
  lemma CreateLeavesTheJobToTheCaller(tn: string, indexes: seq<string>, identified: Result<seq<EseColumn>, Error>,
                                      t: EseTable, prior: nat, interruptAt: Option<nat>)
    ensures forall op :: op in CreateOpsFrom(tn, indexes, identified, t, prior, interruptAt) ==>
      !op.Commit? && !op.PostProcessAll?
  {
    if identified.Ok? {
      CreateOpsShape(tn, indexes, identified.value, t, prior, interruptAt);
    }
  }

  lemma CreateOpsLeaveTheJobToTheCaller(kind: TableKind, t: EseTable, prior: nat, interruptAt: Option<nat>)
    ensures forall op :: op in CreateOps(kind, t, prior, interruptAt) ==> !op.Commit? && !op.PostProcessAll?
  {
    CreateLeavesTheJobToTheCaller(Spec(kind).tableName, Spec(kind).indexes, CatalogOf(kind, t), t, prior, interruptAt);
  }
}
