/**
 * `ESETable.identify_columns`, used as is by the security-descriptor and
 * link tables: each raw column, in order, is either its statically declared
 * descriptor or an unknown-typed descriptor under its storage-safe name.
 */
module Catalog {
  import opened Text
  import opened Columns
  import opened TypeMapper

  function StaticDescriptor(attname2col: map<string, EseColumn>, name: string): EseColumn {
    if name in attname2col then attname2col[name]
    else EseColumn(DbSaneColName(name), name, UnknownType, false)
  }

  function StaticCatalog(spec: TableSpec, names: seq<string>): seq<EseColumn> {
    var attname2col := AttnameMap(spec.columns);
    seq(|names|, i requires 0 <= i < |names| => StaticDescriptor(attname2col, names[i]))
  }

  method IdentifyColumns(spec: TableSpec, t: EseTable) returns (columns: seq<EseColumn>)
    ensures columns == StaticCatalog(spec, t.columns)
  {
    var attname2col := AttnameMap(spec.columns);
    columns := [];
    var i := 0;
    while i < |t.columns|
      invariant 0 <= i <= |t.columns|
      invariant columns == StaticCatalog(spec, t.columns)[..i]
    {
      var name := t.columns[i];
      var esecol;
      if name in attname2col {
        esecol := attname2col[name];
      } else {
        esecol := EseColumn(DbSaneColName(name), name, UnknownType, false);
      }
      columns := columns + [esecol];
      i := i + 1;
    }
  }

  /** One descriptor per raw column, in order, each naming its raw column:
      a declared column verbatim, any other unknown-typed, unindexed and
      under its storage-safe name. */
  lemma StaticCatalogShape(spec: TableSpec, names: seq<string>, i: nat)
    requires i < |names|
    ensures var cat := StaticCatalog(spec, names);
      |cat| == |names| && cat[i].attname == names[i]
      && (names[i] in AttnameMap(spec.columns) ==>
            cat[i] == AttnameMap(spec.columns)[names[i]] && cat[i] in spec.columns)
      && (names[i] !in AttnameMap(spec.columns) ==>
            cat[i] == EseColumn(DbSaneColName(names[i]), names[i], UnknownType, false))
  {
  }

  /** A table whose raw columns are exactly the declared ones, in declared
      order, gets back exactly the declared catalog. */
  lemma StaticCatalogOfDeclaredColumns(spec: TableSpec)
    requires DistinctAttnames(spec.columns)
    ensures StaticCatalog(spec, seq(|spec.columns|, i requires 0 <= i < |spec.columns| => spec.columns[i].attname))
            == spec.columns
  {
    var names := seq(|spec.columns|, i requires 0 <= i < |spec.columns| => spec.columns[i].attname);
    var cat := StaticCatalog(spec, names);
    forall i | 0 <= i < |spec.columns| ensures cat[i] == spec.columns[i] {
      AttnameMapFindsEachColumn(spec.columns, i);
    }
  }
}
