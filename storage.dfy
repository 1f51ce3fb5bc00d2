/**
 * The storage backend and the audit log, seen from the importer: a backend
 * that records, in order, every call it receives. Persistence itself is
 * not part of this model; what the importer asks of it is.
 */
module Storage {
  import opened Columns

  /** The milestone entries `dblog.update_entry` receives. */
  datatype AuditEvent =
    | OpenedFile(file: string)
    | StartImport(table: string)
    | EndImport(table: string, records: nat)
    | StartMetatable(table: string)
    | EndMetatable(table: string)
    | StartPostProcessing

  /** One call into the backend (or the audit log kept in it). */
  datatype Op =
    | OpenTable(table: string)
    | CreateFields(table: string, columns: seq<EseColumn>)
    | CreateIndex(table: string, index: string)
    | InsertFields(table: string, values: seq<Value>)
    | Insert(table: string, row: JsonRow)
    | Audit(event: AuditEvent)
    | Commit
    | PostProcessAll

  /** The rows inserted into `table` with `insert_fields`, in order. */
  function RowsInserted(ops: seq<Op>, table: string): seq<seq<Value>>
    decreases |ops|
  {
    if ops == [] then []
    else (if ops[0].InsertFields? && ops[0].table == table then [ops[0].values] else [])
         + RowsInserted(ops[1..], table)
  }

  /** The rows inserted into `table` with `insert`, in order. */
  function RowsStored(ops: seq<Op>, table: string): seq<JsonRow>
    decreases |ops|
  {
    if ops == [] then []
    else (if ops[0].Insert? && ops[0].table == table then [ops[0].row] else [])
         + RowsStored(ops[1..], table)
  }

  lemma {:induction false} RowsInsertedAppend(a: seq<Op>, b: seq<Op>, table: string)
    ensures RowsInserted(a + b, table) == RowsInserted(a, table) + RowsInserted(b, table)
    decreases |a|
  {
    if a == [] {
      assert a + b == b;
    } else {
      assert (a + b)[0] == a[0] && (a + b)[1..] == a[1..] + b;
      RowsInsertedAppend(a[1..], b, table);
    }
  }

  lemma {:induction false} RowsStoredAppend(a: seq<Op>, b: seq<Op>, table: string)
    ensures RowsStored(a + b, table) == RowsStored(a, table) + RowsStored(b, table)
    decreases |a|
  {
    if a == [] {
      assert a + b == b;
    } else {
      assert (a + b)[0] == a[0] && (a + b)[1..] == a[1..] + b;
      RowsStoredAppend(a[1..], b, table);
    }
  }

  /** A backend connection; `ops` is everything it has been asked to do. */
  class Backend {
    const connection: string
    var ops: seq<Op>

    constructor (connection: string)
      ensures this.connection == connection && ops == []
    {
      this.connection := connection;
      ops := [];
    }

    method OpenTable(table: string)
      modifies this
      ensures ops == old(ops) + [Op.OpenTable(table)]
    {
      ops := ops + [Op.OpenTable(table)];
    }

    method CreateFields(table: string, columns: seq<EseColumn>)
      modifies this
      ensures ops == old(ops) + [Op.CreateFields(table, columns)]
    {
      ops := ops + [Op.CreateFields(table, columns)];
    }

    method CreateIndex(table: string, index: string)
      modifies this
      ensures ops == old(ops) + [Op.CreateIndex(table, index)]
    {
      ops := ops + [Op.CreateIndex(table, index)];
    }

    method InsertFields(table: string, values: seq<Value>)
      modifies this
      ensures ops == old(ops) + [Op.InsertFields(table, values)]
    {
      ops := ops + [Op.InsertFields(table, values)];
    }

    method Insert(table: string, row: JsonRow)
      modifies this
      ensures ops == old(ops) + [Op.Insert(table, row)]
    {
      ops := ops + [Op.Insert(table, row)];
    }

    method Audit(event: AuditEvent)
      modifies this
      ensures ops == old(ops) + [Op.Audit(event)]
    {
      ops := ops + [Op.Audit(event)];
    }

    method Commit()
      modifies this
      ensures ops == old(ops) + [Op.Commit]
    {
      ops := ops + [Op.Commit];
    }

    method PostProcessAll()
      modifies this
      ensures ops == old(ops) + [Op.PostProcessAll]
    {
      ops := ops + [Op.PostProcessAll];
    }

    /** `table.count()`: the rows inserted into the table so far. */
    method Count(table: string) returns (n: nat)
      ensures n == |RowsInserted(ops, table)|
    {
      n := |RowsInserted(ops, table)|;
    }
  }
}
