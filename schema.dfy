/**
 * Schema resolution for the datatable (`Datatable.identify_columns`).
 *
 * The datatable's dynamic columns are named `ATT<letter><id>`. The rows of
 * the datatable that describe attributes carry, in four of those columns,
 * an attributeId, an msDS-IntId, an attributeSyntax and an ldapDisplayName.
 * Scanning them gives a display name and a syntax for each dynamic column.
 */
module Schema {
  import opened Common
  import opened Text
  import opened Columns
  import opened TypeMapper

  const AttributeId: int := 131102
  const AttributeSyntax: int := 131104
  const LdapDisplayName: int := 131532
  const MsdsIntId: int := 591540

  datatype Error =
    | BadColumnId(column: string)   // `int(c.name[4:])` raised ValueError
    | MissingSchemaColumn(id: int)  // `cols[...]` raised KeyError

  /** A raw column: its position in the table and its name. */
  datatype RawColumn = RawColumn(pos: nat, name: string)

  // ---------------------------------------------------------------------
  // The working map { int(c.name[4:]): c for c in table if c.name.startswith("ATT") }
  // ---------------------------------------------------------------------

  predicate IsAttColumn(name: string) { StartsWith(name, "ATT") }

  /** The numeric id written after `ATT` and the syntax letter. */
  function ColumnId(name: string): Option<int> {
    ParseInt(Drop(name, 4))
  }

  /** The name of the column holding attribute `id`, `ATT` + syntax letter + decimal id. */
  function AttName(letter: char, id: nat): string {
    "ATT" + [letter] + NatToString(id)
  }

  /** `int(c.name[4:])` reads back the id written in the name. */
  lemma ColumnIdOfAttName(letter: char, id: nat)
    ensures IsAttColumn(AttName(letter, id)) && ColumnId(AttName(letter, id)) == Some(id)
  {
    var name := AttName(letter, id);
    assert name[..3] == "ATT";
    assert Drop(name, 4) == NatToString(id);
    ParseIntOfNatToString(id);
  }

  /** Every entry is an `ATT` column of the table, keyed by its own id. */
  ghost predicate KeyedByOwnId(m: map<int, RawColumn>, columns: seq<string>) {
    forall k :: k in m ==>
      m[k].pos < |columns| && m[k].name == columns[m[k].pos]
      && IsAttColumn(m[k].name) && ColumnId(m[k].name) == Some(k)
  }

  /** The working map, built left to right so that a later column with the
      same id replaces an earlier one; the first `ATT` column whose suffix
      is not a number aborts the construction. */
  function WorkingMap(columns: seq<string>): (r: Result<map<int, RawColumn>, Error>)
    ensures r.Ok? ==> KeyedByOwnId(r.value, columns)
    decreases |columns|
  {
    if columns == [] then Ok(map[])
    else
      var n := |columns| - 1;
      match WorkingMap(columns[..n])
      case Err(e) => Err(e)
      case Ok(m) =>
        if !IsAttColumn(columns[n]) then Ok(m)
        else match ColumnId(columns[n])
          case None => Err(BadColumnId(columns[n]))
          case Some(k) => Ok(m[k := RawColumn(n, columns[n])])
  }

  /** Every `ATT` column has a numeric id in the map; the column kept for an
      id is the last one carrying it. */
  lemma {:induction false} WorkingMapCoversAttColumns(columns: seq<string>, p: nat)
    requires WorkingMap(columns).Ok? && p < |columns| && IsAttColumn(columns[p])
    ensures ColumnId(columns[p]).Some?
    ensures var m := WorkingMap(columns).value; var k := ColumnId(columns[p]).value;
      k in m && p <= m[k].pos
      && forall q :: m[k].pos < q < |columns| && IsAttColumn(columns[q]) ==> ColumnId(columns[q]) != Some(k)
    decreases |columns|
  {
    var n := |columns| - 1;
    var prefix := columns[..n];
    assert forall q :: 0 <= q < n ==> prefix[q] == columns[q];
    assert WorkingMap(prefix).Ok?;
    var m' := WorkingMap(prefix).value;
    if p < n {
      WorkingMapCoversAttColumns(prefix, p);
    }
    var k := ColumnId(columns[p]).value;
    var m := WorkingMap(columns).value;
    if IsAttColumn(columns[n]) && ColumnId(columns[n]) == Some(k) {
      assert m[k].pos == n;
    } else {
      assert p < n;
      assert m[k] == m'[k];
    }
  }

  /** The construction fails exactly on an `ATT` column with a non-numeric suffix, and names it. */
  lemma {:induction false} WorkingMapErrorNamesBadColumn(columns: seq<string>)
    ensures WorkingMap(columns).Err? ==>
      (exists p :: 0 <= p < |columns| && IsAttColumn(columns[p]) && ColumnId(columns[p]).None?
                   && WorkingMap(columns).error == BadColumnId(columns[p]))
    ensures (exists p :: 0 <= p < |columns| && IsAttColumn(columns[p]) && ColumnId(columns[p]).None?)
            ==> WorkingMap(columns).Err?
    decreases |columns|
  {
    if columns != [] {
      var n := |columns| - 1;
      WorkingMapErrorNamesBadColumn(columns[..n]);
      if WorkingMap(columns).Err? && WorkingMap(columns[..n]).Err? {
        var p :| 0 <= p < n && IsAttColumn(columns[..n][p]) && ColumnId(columns[..n][p]).None?
                 && WorkingMap(columns[..n]).error == BadColumnId(columns[..n][p]);
        assert columns[p] == columns[..n][p];
      }
      if exists p :: 0 <= p < |columns| && IsAttColumn(columns[p]) && ColumnId(columns[p]).None? {
        var p :| 0 <= p < |columns| && IsAttColumn(columns[p]) && ColumnId(columns[p]).None?;
        if p < n {
          assert columns[..n][p] == columns[p];
        }
      }
    }
  }

  /** Two entries never share a name: the id is read off the name. */
  ghost predicate NamesInjective(m: map<int, RawColumn>) {
    forall k1, k2 :: k1 in m && k2 in m && k1 != k2 ==> m[k1].name != m[k2].name
  }

  lemma WorkingMapNamesInjective(columns: seq<string>)
    requires WorkingMap(columns).Ok?
    ensures NamesInjective(WorkingMap(columns).value)
  {
  }

  // ---------------------------------------------------------------------
  // The schema rows: `iter_records(columns=lcols)`
  // ---------------------------------------------------------------------

  /** Positions of the attributeId, msDS-IntId, attributeSyntax and ldapDisplayName columns. */
  datatype SchemaColumns = SchemaColumns(aid: nat, msds: nat, syntax: nat, ldn: nat)

  /** `(aid, amsds, asy, ldn)` of one record, with the values made typed. */
  datatype SchemaRow = SchemaRow(aid: Option<int>, msds: Option<int>, syntax: Option<int>, ldn: Option<string>)

  function Field(rec: seq<Value>, pos: nat): Value {
    if pos < |rec| then rec[pos] else Null
  }

  function AsInt(v: Value): Option<int> {
    if v.Int? then Some(v.i) else None
  }

  function AsStr(v: Value): Option<string> {
    if v.Str? then Some(v.s) else None
  }

  function SchemaRowOf(rec: seq<Value>, sc: SchemaColumns): SchemaRow {
    SchemaRow(AsInt(Field(rec, sc.aid)), AsInt(Field(rec, sc.msds)),
              AsInt(Field(rec, sc.syntax)), AsStr(Field(rec, sc.ldn)))
  }

  function SchemaRows(records: seq<seq<Value>>, sc: SchemaColumns): (rows: seq<SchemaRow>)
    ensures |rows| == |records|
    ensures forall i :: 0 <= i < |records| ==> rows[i] == SchemaRowOf(records[i], sc)
  {
    seq(|records|, i requires 0 <= i < |records| => SchemaRowOf(records[i], sc))
  }

  /** `lcols`: the four schema columns, looked up in the order the source
      does; the first one missing is the key of the KeyError. */
  function LocateSchemaColumns(cols: map<int, RawColumn>): (r: Result<SchemaColumns, Error>)
    ensures r.Ok? <==> AttributeId in cols && MsdsIntId in cols && AttributeSyntax in cols && LdapDisplayName in cols
    ensures r.Ok? ==> r.value == SchemaColumns(cols[AttributeId].pos, cols[MsdsIntId].pos,
                                               cols[AttributeSyntax].pos, cols[LdapDisplayName].pos)
    ensures r.Err? ==> r.error.MissingSchemaColumn? && r.error.id !in cols
  {
    if AttributeId !in cols then Err(MissingSchemaColumn(AttributeId))
    else if MsdsIntId !in cols then Err(MissingSchemaColumn(MsdsIntId))
    else if AttributeSyntax !in cols then Err(MissingSchemaColumn(AttributeSyntax))
    else if LdapDisplayName !in cols then Err(MissingSchemaColumn(LdapDisplayName))
    else Ok(SchemaColumns(cols[AttributeId].pos, cols[MsdsIntId].pos,
                          cols[AttributeSyntax].pos, cols[LdapDisplayName].pos))
  }

  // ---------------------------------------------------------------------
  // The scan
  // ---------------------------------------------------------------------

  /** The working map still to resolve, and `att2ldn` / `att2asy` so far. */
  datatype ScanState = ScanState(cols: map<int, RawColumn>, ldn: map<string, string>, asy: map<string, Option<int>>)

  /** A row the scan acts on: a non-empty display name and at least one id. */
  predicate Live(row: SchemaRow) {
    row.ldn.Some? && row.ldn.value != "" && (row.aid.Some? || row.msds.Some?)
  }

  /** `cols.pop(key, None)` */
  function Pop(cols: map<int, RawColumn>, key: Option<int>): (map<int, RawColumn>, Option<RawColumn>) {
    if key.Some? && key.value in cols then (cols - {key.value}, Some(cols[key.value])) else (cols, None)
  }

  /** Which id of the row the scan consumes: attributeId first, msDS-IntId otherwise. */
  function MatchedKey(cols: map<int, RawColumn>, row: SchemaRow): (k: Option<int>)
    ensures !Live(row) ==> k.None?
    ensures Live(row) && row.aid.Some? && row.aid.value in cols ==> k == row.aid
    ensures Live(row) && !(row.aid.Some? && row.aid.value in cols) && row.msds.Some? && row.msds.value in cols
            ==> k == row.msds
    ensures k.None? ==> !Live(row) || (!(row.aid.Some? && row.aid.value in cols) && !(row.msds.Some? && row.msds.value in cols))
    ensures k.Some? ==> k.value in cols && (row.aid == k || row.msds == k)
  {
    if !Live(row) then None
    else if row.aid.Some? && row.aid.value in cols then row.aid
    else if row.msds.Some? && row.msds.value in cols then row.msds
    else None
  }

  /** A live row that claims id `k`: by its attributeId, or by its msDS-IntId
      when its attributeId cannot be consumed from `cols`. */
  predicate Claims(cols: map<int, RawColumn>, row: SchemaRow, k: int) {
    Live(row)
    && (row.aid == Some(k) || (row.msds == Some(k) && (row.aid.None? || row.aid.value !in cols)))
  }

  /** One iteration of the scan loop. */
  function Step(st: ScanState, row: SchemaRow): (r: ScanState)
    ensures MatchedKey(st.cols, row).None? ==> r == st
    ensures MatchedKey(st.cols, row).Some? ==>
      var k := MatchedKey(st.cols, row).value;
      var name := st.cols[k].name;
      r == ScanState(st.cols - {k}, st.ldn[name := row.ldn.value], st.asy[name := row.syntax])
  {
    if !Live(row) then st
    else
      var (c1, cc1) := Pop(st.cols, row.aid);
      var (c2, cc) := if cc1.Some? then (c1, cc1) else Pop(c1, row.msds);
      if cc.Some? then ScanState(c2, st.ldn[cc.value.name := row.ldn.value], st.asy[cc.value.name := row.syntax])
      else ScanState(c2, st.ldn, st.asy)
  }

  /** Scanning every row, without the early exit. */
  function Scan(st: ScanState, rows: seq<SchemaRow>): ScanState
    decreases |rows|
  {
    if rows == [] then st else Scan(Step(st, rows[0]), rows[1..])
  }

  /** Once the working map is empty no row changes anything, so stopping
      the scan there gives the same maps as scanning to the end. */
  lemma {:induction false} ScanWithNothingLeft(st: ScanState, rows: seq<SchemaRow>)
    requires st.cols == map[]
    ensures Scan(st, rows) == st
    decreases |rows|
  {
    if rows != [] {
      ScanWithNothingLeft(Step(st, rows[0]), rows[1..]);
    }
  }

  lemma {:induction false} ScanAppend(st: ScanState, a: seq<SchemaRow>, b: seq<SchemaRow>)
    ensures Scan(st, a + b) == Scan(Scan(st, a), b)
    decreases |a|
  {
    if a != [] {
      assert (a + b)[0] == a[0];
      assert (a + b)[1..] == a[1..] + b;
      ScanAppend(Step(st, a[0]), a[1..], b);
      calc {
        Scan(st, a + b);
        Scan(Step(st, a[0]), a[1..] + b);
        Scan(Scan(Step(st, a[0]), a[1..]), b);
        Scan(Scan(st, a), b);
      }
    } else {
      assert a + b == b;
    }
  }

  predicate Mentions(row: SchemaRow, k: int) {
    row.aid == Some(k) || row.msds == Some(k)
  }

  /** The scan only removes ids; an id no row mentions stays, with its column. */
  lemma {:induction false} ScanKeepsUnmentioned(st: ScanState, rows: seq<SchemaRow>, k: int)
    requires k in st.cols
    requires forall i :: 0 <= i < |rows| ==> !Mentions(rows[i], k)
    ensures k in Scan(st, rows).cols && Scan(st, rows).cols[k] == st.cols[k]
    decreases |rows|
  {
    if rows != [] {
      ScanKeepsUnmentioned(Step(st, rows[0]), rows[1..], k);
    }
  }

  /** The working map only shrinks, and the resolved names only grow, in step. */
  lemma {:induction false} ScanShrinks(st: ScanState, rows: seq<SchemaRow>)
    ensures Scan(st, rows).cols.Keys <= st.cols.Keys
    ensures forall k :: k in Scan(st, rows).cols ==> Scan(st, rows).cols[k] == st.cols[k]
    ensures st.ldn.Keys <= Scan(st, rows).ldn.Keys
    ensures st.ldn.Keys == st.asy.Keys ==> Scan(st, rows).ldn.Keys == Scan(st, rows).asy.Keys
    decreases |rows|
  {
    if rows != [] {
      ScanShrinks(Step(st, rows[0]), rows[1..]);
    }
  }

  /** Every id the scan consumed has its column resolved, and every newly
      resolved name is the name of a consumed id's column. */
  lemma {:induction false} ScanResolvesConsumed(st: ScanState, rows: seq<SchemaRow>)
    ensures forall k :: k in st.cols && k !in Scan(st, rows).cols ==> st.cols[k].name in Scan(st, rows).ldn
    ensures forall n :: n in Scan(st, rows).ldn && n !in st.ldn ==>
              exists k :: k in st.cols && k !in Scan(st, rows).cols && st.cols[k].name == n
    decreases |rows|
  {
    if rows != [] {
      var st1 := Step(st, rows[0]);
      ScanResolvesConsumed(st1, rows[1..]);
      ScanShrinks(st1, rows[1..]);
      var fin := Scan(st, rows);
      forall n | n in fin.ldn && n !in st.ldn
        ensures exists k :: k in st.cols && k !in fin.cols && st.cols[k].name == n
      {
        if n !in st1.ldn {
          var k :| k in st1.cols && k !in fin.cols && st1.cols[k].name == n;
          assert k in st.cols && st.cols[k] == st1.cols[k];
        } else {
          var k := MatchedKey(st.cols, rows[0]).value;
          assert k in st.cols && k !in fin.cols && st.cols[k].name == n;
        }
      }
    }
  }

  /** A resolved name that no remaining column can claim keeps its display name and syntax. */
  lemma {:induction false} ScanPreservesSettled(st: ScanState, rows: seq<SchemaRow>, n: string)
    requires n in st.ldn && n in st.asy
    requires forall k :: k in st.cols ==> st.cols[k].name != n
    ensures n in Scan(st, rows).ldn && Scan(st, rows).ldn[n] == st.ldn[n]
    ensures n in Scan(st, rows).asy && Scan(st, rows).asy[n] == st.asy[n]
    decreases |rows|
  {
    if rows != [] {
      ScanPreservesSettled(Step(st, rows[0]), rows[1..], n);
    }
  }

  /** First match wins: the row that pops an id from the working map (by
      attributeId, or by msDS-IntId when its attributeId is absent or no
      longer in the map the earlier rows left) decides that column's display
      name and syntax; rows before it that skipped the id, and any later
      definition of the same id, are ignored. */
  lemma ScanFirstDefinitionWins(st: ScanState, rows: seq<SchemaRow>, j: nat, k: int)
    requires NamesInjective(st.cols) && k in st.cols && j < |rows|
    requires var mid := Scan(st, rows[..j]); k in mid.cols && Claims(mid.cols, rows[j], k)
    ensures var fin := Scan(st, rows);
      var n := st.cols[k].name;
      n in fin.ldn && fin.ldn[n] == rows[j].ldn.value && n in fin.asy && fin.asy[n] == rows[j].syntax
  {
    var before := rows[..j];
    ScanShrinks(st, before);
    var mid := Scan(st, before);
    StepSettles(mid, rows[j], k);
    ScanSplitAt(st, rows, j);
    ScanPreservesSettled(Step(mid, rows[j]), rows[j + 1..], st.cols[k].name);
  }

  lemma ScanSplitAt(st: ScanState, rows: seq<SchemaRow>, j: nat)
    requires j < |rows|
    ensures Scan(st, rows) == Scan(Step(Scan(st, rows[..j]), rows[j]), rows[j + 1..])
  {
    var rest := [rows[j]] + rows[j + 1..];
    assert rows == rows[..j] + rest;
    ScanAppend(st, rows[..j], rest);
    assert rest[0] == rows[j] && rest[1..] == rows[j + 1..];
  }

  /** A live row defining an id still in an injective working map settles
      that column's name: no remaining column carries it any more. */
  lemma StepSettles(st: ScanState, row: SchemaRow, k: int)
    requires NamesInjective(st.cols) && k in st.cols
    requires Claims(st.cols, row, k)
    ensures var after := Step(st, row); var n := st.cols[k].name;
      && n in after.ldn && after.ldn[n] == row.ldn.value && n in after.asy && after.asy[n] == row.syntax
      && forall k' :: k' in after.cols ==> after.cols[k'].name != n
  {
    assert MatchedKey(st.cols, row) == Some(k);
  }

  /** Without the first-match rule written out: when one id is defined twice,
      swapping the two rows changes the resolved name, so the outcome depends
      on the order of the schema rows. */
  lemma ScanOrderMatters()
    ensures var st := ScanState(map[7 := RawColumn(0, "ATTm7")], map[], map[]);
      var r1 := SchemaRow(Some(7), None, None, Some("first"));
      var r2 := SchemaRow(Some(7), None, None, Some("second"));
      "ATTm7" in Scan(st, [r1, r2]).ldn && Scan(st, [r1, r2]).ldn["ATTm7"] == "first"
      && "ATTm7" in Scan(st, [r2, r1]).ldn && Scan(st, [r2, r1]).ldn["ATTm7"] == "second"
  {
    var st := ScanState(map[7 := RawColumn(0, "ATTm7")], map[], map[]);
    var r1 := SchemaRow(Some(7), None, None, Some("first"));
    var r2 := SchemaRow(Some(7), None, None, Some("second"));
    assert MatchedKey(st.cols, r1) == Some(7);
    assert MatchedKey(st.cols, r2) == Some(7);
    var s1 := Step(st, r1);
    var s2 := Step(st, r2);
    assert s1.cols == map[] && s1.ldn["ATTm7"] == "first";
    assert s2.cols == map[] && s2.ldn["ATTm7"] == "second";
    assert [r1, r2][1..] == [r2];
    assert [r2, r1][1..] == [r1];
    ScanWithNothingLeft(s1, [r2]);
    ScanWithNothingLeft(s2, [r1]);
  }

  /** A row whose attributeId names no remaining column falls back to its
      msDS-IntId, and a row that is not live consumes nothing. */
  lemma ScanFallsBackToMsds()
    ensures var st := ScanState(map[7 := RawColumn(0, "ATTm7")], map[], map[]);
      var dead := SchemaRow(None, Some(7), None, Some(""));
      var r := SchemaRow(Some(99), Some(7), Some(0x80001), Some("cn"));
      Scan(st, [dead]) == st
      && "ATTm7" in Scan(st, [dead, r]).ldn && Scan(st, [dead, r]).ldn["ATTm7"] == "cn"
      && Scan(st, [dead, r]).asy["ATTm7"] == Some(0x80001) && Scan(st, [dead, r]).cols == map[]
  {
    var st := ScanState(map[7 := RawColumn(0, "ATTm7")], map[], map[]);
    var dead := SchemaRow(None, Some(7), None, Some(""));
    var r := SchemaRow(Some(99), Some(7), Some(0x80001), Some("cn"));
    assert MatchedKey(st.cols, dead) == None;
    assert MatchedKey(st.cols, r) == Some(7);
    assert Step(st, dead) == st;
    var after := Step(st, r);
    assert after == ScanState(map[], map["ATTm7" := "cn"], map["ATTm7" := Some(0x80001)]);
    assert [dead][1..] == [];
    assert [dead, r][1..] == [r];
    assert [r][1..] == [];
    assert Scan(st, [dead]) == Scan(st, []) == st;
    assert Scan(st, [r]) == Scan(after, []) == after;
    assert Scan(st, [dead, r]) == Scan(st, [r]);
  }

  /** The fallback also applies when an earlier duplicate definition has
      already consumed the row's attributeId: the second row's msDS-IntId
      then decides its own column. */
  lemma ScanFallsBackAfterDuplicate()
    ensures var st := ScanState(map[1 := RawColumn(0, "ATTm1"), 2 := RawColumn(1, "ATTm2")], map[], map[]);
      var r0 := SchemaRow(Some(1), None, None, Some("a"));
      var r1 := SchemaRow(Some(1), Some(2), Some(0x8000c), Some("b"));
      var fin := Scan(st, [r0, r1]);
      "ATTm1" in fin.ldn && fin.ldn["ATTm1"] == "a"
      && "ATTm2" in fin.ldn && fin.ldn["ATTm2"] == "b" && "ATTm2" in fin.asy && fin.asy["ATTm2"] == Some(0x8000c)
  {
    var st := ScanState(map[1 := RawColumn(0, "ATTm1"), 2 := RawColumn(1, "ATTm2")], map[], map[]);
    var r0 := SchemaRow(Some(1), None, None, Some("a"));
    var r1 := SchemaRow(Some(1), Some(2), Some(0x8000c), Some("b"));
    var rows := [r0, r1];
    assert MatchedKey(st.cols, r0) == Some(1);
    var mid := Step(st, r0);
    assert mid.cols == map[2 := RawColumn(1, "ATTm2")];
    assert rows[..1] == [r0] && [r0][1..] == [];
    assert Scan(st, rows[..1]) == Scan(mid, []) == mid;
    assert Claims(Scan(st, rows[..1]).cols, rows[1], 2);
    ScanFirstDefinitionWins(st, rows, 1, 2);
    assert rows[..0] == [] && Scan(st, rows[..0]) == st;
    assert Claims(st.cols, rows[0], 1);
    ScanFirstDefinitionWins(st, rows, 0, 1);
  }

  /** An earlier row that mentions an id but is skipped (its display name
      is empty) does not stop the next row that claims the id from
      deciding its column. */
  lemma ScanSkipsDeadMention()
    ensures var st := ScanState(map[7 := RawColumn(0, "ATTm7")], map[], map[]);
      var dead := SchemaRow(Some(7), None, None, Some(""));
      var r := SchemaRow(Some(7), None, None, Some("first"));
      var fin := Scan(st, [dead, r]);
      "ATTm7" in fin.ldn && fin.ldn["ATTm7"] == "first"
  {
    var st := ScanState(map[7 := RawColumn(0, "ATTm7")], map[], map[]);
    var dead := SchemaRow(Some(7), None, None, Some(""));
    var r := SchemaRow(Some(7), None, None, Some("first"));
    var rows := [dead, r];
    assert Step(st, dead) == st;
    assert rows[..1] == [dead] && [dead][1..] == [];
    assert Scan(st, rows[..1]) == Scan(st, []) == st;
    assert Claims(Scan(st, rows[..1]).cols, rows[1], 7);
    ScanFirstDefinitionWins(st, rows, 1, 7);
  }

  // ---------------------------------------------------------------------
  // The resulting catalog
  // ---------------------------------------------------------------------

  /** The descriptor of one raw column once the scan is over. */
  function Describe(attname2col: map<string, EseColumn>, name: string,
                    ldn: map<string, string>, asy: map<string, Option<int>>): EseColumn
  {
    if name in attname2col then attname2col[name]
    else
      var typed := SyntaxToType(if name in asy then asy[name] else None);
      EseColumn(DbSaneColName(if name in ldn then ldn[name] else name), name, typed.0, typed.1)
  }

  function DescribeAll(attname2col: map<string, EseColumn>, columns: seq<string>, ldn: map<string, string>,
                       asy: map<string, Option<int>>): seq<EseColumn>
  {
    seq(|columns|, i requires 0 <= i < |columns| => Describe(attname2col, columns[i], ldn, asy))
  }

  function ResolvedCatalog(columns: seq<string>, ldn: map<string, string>,
                           asy: map<string, Option<int>>): seq<EseColumn>
  {
    DescribeAll(AttnameMap(DatatableSpec.columns), columns, ldn, asy)
  }

  /** What `Datatable.identify_columns` returns, or the exception it raises. */
  function DatatableCatalog(t: EseTable): Result<seq<EseColumn>, Error> {
    match WorkingMap(t.columns)
    case Err(e) => Err(e)
    case Ok(cols) =>
      match LocateSchemaColumns(cols)
      case Err(e) => Err(e)
      case Ok(sc) =>
        var fin := Scan(ScanState(cols, map[], map[]), SchemaRows(t.records, sc));
        Ok(ResolvedCatalog(t.columns, fin.ldn, fin.asy))
  }

  /** The schema rows the scan reads, once the working map and the four schema columns are found. */
  function SchemaRowsOf(t: EseTable): seq<SchemaRow> {
    match WorkingMap(t.columns)
    case Err(_) => []
    case Ok(cols) =>
      match LocateSchemaColumns(cols)
      case Err(_) => []
      case Ok(sc) => SchemaRows(t.records, sc)
  }

  /** The state the scan ends in, once the working map and the four schema columns are found. */
  function FinalScan(t: EseTable): ScanState {
    match WorkingMap(t.columns)
    case Err(_) => ScanState(map[], map[], map[])
    case Ok(cols) => Scan(ScanState(cols, map[], map[]), SchemaRowsOf(t))
  }

  lemma DatatableCatalogAt(t: EseTable, p: nat)
    requires DatatableCatalog(t).Ok? && p < |t.columns|
    ensures |DatatableCatalog(t).value| == |t.columns|
    ensures DatatableCatalog(t).value[p]
      == Describe(AttnameMap(DatatableSpec.columns), t.columns[p], FinalScan(t).ldn, FinalScan(t).asy)
  {
  }

  lemma DescribeUnresolved(attname2col: map<string, EseColumn>, name: string,
                           ldn: map<string, string>, asy: map<string, Option<int>>)
    requires name !in attname2col && name !in ldn && name !in asy
    ensures Describe(attname2col, name, ldn, asy) == EseColumn(DbSaneColName(name), name, UnknownType, false)
  {
  }

  lemma DescribeResolved(attname2col: map<string, EseColumn>, name: string,
                         ldn: map<string, string>, asy: map<string, Option<int>>)
    requires name !in attname2col && name in ldn && name in asy
    ensures Describe(attname2col, name, ldn, asy)
      == EseColumn(DbSaneColName(ldn[name]), name, SyntaxToType(asy[name]).0, SyntaxToType(asy[name]).1)
  {
  }

  /** The catalog exists exactly when every `ATT` suffix is numeric and the
      four schema columns are present; otherwise the error names the cause. */
  lemma DatatableCatalogFailures(t: EseTable)
    ensures WorkingMap(t.columns).Err? ==> DatatableCatalog(t) == Err(WorkingMap(t.columns).error)
    ensures WorkingMap(t.columns).Ok? ==>
      var cols := WorkingMap(t.columns).value;
      (DatatableCatalog(t).Ok? <==>
        AttributeId in cols && MsdsIntId in cols && AttributeSyntax in cols && LdapDisplayName in cols)
      && (DatatableCatalog(t).Err? ==> DatatableCatalog(t).error.MissingSchemaColumn?
                                       && DatatableCatalog(t).error.id !in cols)
  {
  }

  /** One descriptor per raw column, in the raw order, each naming its raw
      column; static columns verbatim, every other name storage safe. */
  lemma DatatableCatalogShape(t: EseTable, i: nat)
    requires DatatableCatalog(t).Ok? && i < |t.columns|
    ensures var cat := DatatableCatalog(t).value; var attname2col := AttnameMap(DatatableSpec.columns);
      |cat| == |t.columns| && cat[i].attname == t.columns[i]
      && (t.columns[i] in attname2col ==> cat[i] == attname2col[t.columns[i]] && cat[i] in DatatableSpec.columns)
      && (t.columns[i] !in attname2col ==> '-' !in cat[i].name)
  {
  }

  /** A dynamic column takes the display name (made storage safe) and the
      syntax type of the schema row that pops its id: row j, when the id is
      still in the map the rows before it left and row j claims it. */
  lemma DatatableUsesFirstDefinition(t: EseTable, p: nat, k: int, j: nat)
    requires DatatableCatalog(t).Ok? && p < |t.columns|
    requires t.columns[p] !in AttnameMap(DatatableSpec.columns)
    requires IsAttColumn(t.columns[p]) && ColumnId(t.columns[p]) == Some(k)
    requires forall q :: p < q < |t.columns| && IsAttColumn(t.columns[q]) ==> ColumnId(t.columns[q]) != Some(k)
    requires j < |SchemaRowsOf(t)|
    requires var mid := Scan(ScanState(WorkingMap(t.columns).value, map[], map[]), SchemaRowsOf(t)[..j]);
      k in mid.cols && Claims(mid.cols, SchemaRowsOf(t)[j], k)
    ensures var row := SchemaRowsOf(t)[j];
      DatatableCatalog(t).value[p]
        == EseColumn(DbSaneColName(row.ldn.value), t.columns[p], SyntaxToType(row.syntax).0, SyntaxToType(row.syntax).1)
  {
    var m := WorkingMap(t.columns).value;
    var rows := SchemaRowsOf(t);
    WorkingMapCoversAttColumns(t.columns, p);
    assert m[k].pos == p;
    WorkingMapNamesInjective(t.columns);
    ScanFirstDefinitionWins(ScanState(m, map[], map[]), rows, j, k);
    DatatableCatalogAt(t, p);
    DescribeResolved(AttnameMap(DatatableSpec.columns), t.columns[p], FinalScan(t).ldn, FinalScan(t).asy);
  }

  /** The msDS-IntId fallback: a dynamic column whose id is still
      unconsumed when a live row names it as its msDS-IntId, while that
      row's attributeId is missing or no longer in the working map (never a
      column id, or consumed by an earlier row), takes that row's display
      name (made storage safe) and syntax type. */
  lemma DatatableUsesMsdsFallback(t: EseTable, p: nat, k: int, j: nat)
    requires DatatableCatalog(t).Ok? && p < |t.columns|
    requires t.columns[p] !in AttnameMap(DatatableSpec.columns)
    requires IsAttColumn(t.columns[p]) && ColumnId(t.columns[p]) == Some(k)
    requires forall q :: p < q < |t.columns| && IsAttColumn(t.columns[q]) ==> ColumnId(t.columns[q]) != Some(k)
    requires j < |SchemaRowsOf(t)| && Live(SchemaRowsOf(t)[j]) && SchemaRowsOf(t)[j].msds == Some(k)
    requires var mid := Scan(ScanState(WorkingMap(t.columns).value, map[], map[]), SchemaRowsOf(t)[..j]);
      k in mid.cols && (SchemaRowsOf(t)[j].aid.None? || SchemaRowsOf(t)[j].aid.value !in mid.cols)
    ensures var row := SchemaRowsOf(t)[j];
      DatatableCatalog(t).value[p]
        == EseColumn(DbSaneColName(row.ldn.value), t.columns[p], SyntaxToType(row.syntax).0, SyntaxToType(row.syntax).1)
  {
    var rows := SchemaRowsOf(t);
    assert Claims(Scan(ScanState(WorkingMap(t.columns).value, map[], map[]), rows[..j]).cols, rows[j], k);
    DatatableUsesFirstDefinition(t, p, k, j);
  }

  /** A name whose ids no row mentions is never resolved. */
  lemma ScanLeavesUnmentionedUnresolved(m: map<int, RawColumn>, rows: seq<SchemaRow>, n: string)
    requires forall k :: k in m && m[k].name == n ==> forall i :: 0 <= i < |rows| ==> !Mentions(rows[i], k)
    ensures var fin := Scan(ScanState(m, map[], map[]), rows); n !in fin.ldn && n !in fin.asy
  {
    var init := ScanState(m, map[], map[]);
    var fin := Scan(init, rows);
    ScanResolvesConsumed(init, rows);
    ScanShrinks(init, rows);
    if n in fin.ldn {
      var k :| k in m && k !in fin.cols && m[k].name == n;
      ScanKeepsUnmentioned(init, rows, k);
      assert false;
    }
  }

  /** A column whose id no schema row mentions stays unresolved: its own
      name made storage safe, typed ("UnknownType", false). */
  lemma DatatableUnmentionedIsUnknown(t: EseTable, p: nat)
    requires DatatableCatalog(t).Ok? && p < |t.columns|
    requires t.columns[p] !in AttnameMap(DatatableSpec.columns)
    requires IsAttColumn(t.columns[p]) && ColumnId(t.columns[p]).Some? ==>
      forall i :: 0 <= i < |SchemaRowsOf(t)| ==> !Mentions(SchemaRowsOf(t)[i], ColumnId(t.columns[p]).value)
    ensures DatatableCatalog(t).value[p]
      == EseColumn(DbSaneColName(t.columns[p]), t.columns[p], UnknownType, false)
  {
    var m := WorkingMap(t.columns).value;
    var n := t.columns[p];
    forall k | k in m && m[k].name == n
      ensures forall i :: 0 <= i < |SchemaRowsOf(t)| ==> !Mentions(SchemaRowsOf(t)[i], k)
    {
      assert IsAttColumn(n) && ColumnId(n) == Some(k);
    }
    ScanLeavesUnmentionedUnresolved(m, SchemaRowsOf(t), n);
    DatatableCatalogAt(t, p);
    DescribeUnresolved(AttnameMap(DatatableSpec.columns), n, FinalScan(t).ldn, FinalScan(t).asy);
  }

  /** The scan loop of `Datatable.identify_columns`: it stops as soon as the
      working map is empty and still ends with the maps of the full scan. */
  method ScanSchemaRows(cols0: map<int, RawColumn>, records: seq<seq<Value>>, lcols: SchemaColumns)
    returns (att2ldn: map<string, string>, att2asy: map<string, Option<int>>)
    ensures var fin := Scan(ScanState(cols0, map[], map[]), SchemaRows(records, lcols));
      att2ldn == fin.ldn && att2asy == fin.asy
  {
    var cols := cols0;
    att2ldn, att2asy := map[], map[];
    ghost var rows := SchemaRows(records, lcols);
    ghost var init := ScanState(cols, att2ldn, att2asy);
    var i := 0;
    while i < |records|
      invariant 0 <= i <= |records|
      invariant Scan(ScanState(cols, att2ldn, att2asy), rows[i..]) == Scan(init, rows)
    {
      var row := SchemaRowOf(records[i], lcols);
      ghost var before := ScanState(cols, att2ldn, att2asy);
      assert rows[i..] == [row] + rows[i + 1..];
      i := i + 1;
      if row.ldn.None? || row.ldn.value == "" {
        continue;
      }
      if row.aid.None? && row.msds.None? {
        continue;
      }
      var popped := Pop(cols, row.aid);
      cols := popped.0;
      var cc := popped.1;
      if cc.None? {
        popped := Pop(cols, row.msds);
        cols := popped.0;
        cc := popped.1;
      }
      if cc.Some? {
        att2ldn := att2ldn[cc.value.name := row.ldn.value];
        att2asy := att2asy[cc.value.name := row.syntax];
      }
      assert ScanState(cols, att2ldn, att2asy) == Step(before, row);
      if |cols| == 0 {
        ScanWithNothingLeft(ScanState(cols, att2ldn, att2asy), rows[i..]);
        break;
      }
    }
  }

  /** The final loop of `Datatable.identify_columns`: one descriptor per raw column, in order. */
  method DescribeColumns(attname2col: map<string, EseColumn>, names: seq<string>,
                         att2ldn: map<string, string>, att2asy: map<string, Option<int>>)
    returns (columns: seq<EseColumn>)
    ensures columns == DescribeAll(attname2col, names, att2ldn, att2asy)
  {
    columns := [];
    var c := 0;
    while c < |names|
      invariant 0 <= c <= |names|
      invariant columns == DescribeAll(attname2col, names, att2ldn, att2asy)[..c]
    {
      columns := columns + [Describe(attname2col, names[c], att2ldn, att2asy)];
      c := c + 1;
    }
  }

  /** `Datatable.identify_columns`. */
  method IdentifyDatatableColumns(t: EseTable) returns (r: Result<seq<EseColumn>, Error>)
    ensures r == DatatableCatalog(t)
  {
    var built := WorkingMap(t.columns);
    if built.Err? {
      return Err(built.error);
    }
    var cols := built.value;
    var located := LocateSchemaColumns(cols);
    if located.Err? {
      return Err(located.error);
    }
    var att2ldn, att2asy := ScanSchemaRows(cols, t.records, located.value);
    var columns := DescribeColumns(AttnameMap(DatatableSpec.columns), t.columns, att2ldn, att2asy);
    return Ok(columns);
  }
}
