/** mainTipo.py: each vehicle-type row becomes one INSERT into `tipoVeiculos`
    holding the fields the row has. */
module VehicleTypes {
  import opened Outcomes
  import opened PyStrings
  import opened PyValues
  import opened Escaping
  import opened Fields

  const TipoTable := "tipoVeiculos"

  const TipoMapping: FieldMapping := [("TIPO", "tipo"), ("DIARIA", "diaria"), ("GUINCHO", "guincho")]

  /** The `escape_sql_string` of mainTipo.py: as main.py's, but without a date
      branch, so a date falls through to the quoted `str(value)`. */
  function TipoEscape(v: Value): string
  {
    match v
    case Absent => "NULL"
    case Text(s) => if s == "" then "NULL" else Quote(EscapeText(s))
    case Int(_) => Str(v)
    case Bool(_) => Str(v)
    case Float(_) => Str(v)
    case _ => Quote(Str(v))
  }

  /** The statement for a row: the columns of the fields it holds, in mapping
      order, and their literals. */
  function TipoStatement(rec: Record, table: string): string
  {
    var sel := Kept(TipoMapping, rec, {});
    Insert(table, Targets(sel), Literals(TipoEscape, rec, sel))
  }

  /** Builds the statement; the row is only read. */
  method GenerateTipoVeiculosSql(record: Record, tableName: string) returns (sql: string)
    ensures sql == TipoStatement(record, tableName)
  {
    var columns: seq<string> := [];
    var values: seq<string> := [];
    for i := 0 to |TipoMapping|
      invariant columns == Targets(Kept(TipoMapping[..i], record, {}))
      invariant values == Literals(TipoEscape, record, Kept(TipoMapping[..i], record, {}))
    {
      var (dbfField, sqlField) := TipoMapping[i];
      TargetsStep(record, {}, TipoMapping, i);
      LiteralsStep(TipoEscape, record, {}, TipoMapping, i);
      if dbfField in record {
        var value := record[dbfField];
        var formattedValue := TipoEscape(value);
        columns := columns + [sqlField];
        values := values + [formattedValue];
      }
    }
    assert TipoMapping[..|TipoMapping|] == TipoMapping;
    sql := "INSERT INTO " + tableName + " (" + Join(columns, ", ") + ") VALUES (" + Join(values, ", ") + ");\n";
  }

  /** The loop of mainTipo.py's `main`: one statement per row, in row order. */
  method TipoSqls(records: seq<Record>) returns (sqls: seq<string>)
    ensures |sqls| == |records|
    ensures forall i :: 0 <= i < |records| ==> sqls[i] == TipoStatement(records[i], TipoTable)
  {
    sqls := [];
    for i := 0 to |records|
      invariant |sqls| == i
      invariant forall j :: 0 <= j < i ==> sqls[j] == TipoStatement(records[j], TipoTable)
    {
      var sql := GenerateTipoVeiculosSql(records[i], TipoTable);
      sqls := sqls + [sql];
    }
  }

  /** Leaving out the date branch changes nothing: `str()` of a date is its ISO
      text, so both copies of the escaper agree on every value. */
  lemma TipoEscapeAgrees(v: Value)
    ensures TipoEscape(v) == Escape(v)
  {
  }

  /** Only None and the empty string become `NULL` (floats left aside); text is
      quoted with its quotes doubled and line breaks escaped, and reads back. */
  lemma TipoEscapeSpec(v: Value)
    ensures !v.Float? ==> (TipoEscape(v) == "NULL" <==> v == Absent || v == Text(""))
    ensures v.Text? && v.s != "" ==>
      var r := TipoEscape(v);
      && |r| >= 2 && r[0] == '"' && r[|r| - 1] == '"' && '\n' !in r
      && CollapseQuotes(r[1..|r| - 1]) == Some(Replace(v.s, '\n', "\\n"))
    ensures v.Other? ==> TipoEscape(v) == Quote(v.repr)
  {
    TipoEscapeAgrees(v);
    if !v.Float? {
      EscapeIsNull(v);
    }
    if v.Text? && v.s != "" {
      TextLiteral(v.s);
    }
  }

  /** The selected entries are those of TIPO, DIARIA and GUINCHO that the row
      holds, in that order. */
  lemma TipoSelection(rec: Record)
    ensures Kept(TipoMapping, rec, {}) == (if "TIPO" in rec then [TipoMapping[0]] else [])
                                          + (if "DIARIA" in rec then [TipoMapping[1]] else [])
                                          + (if "GUINCHO" in rec then [TipoMapping[2]] else [])
  {
    var m := TipoMapping;
    var a, b, c := [m[0]], [m[1]], [m[2]];
    assert m == a + b + c;
    KeptAppend(a + b, c, rec, {});
    KeptAppend(a, b, rec, {});
    assert a[..0] == [] && b[..0] == [] && c[..0] == [];
  }

  /** The columns are those of TIPO, DIARIA and GUINCHO that the row holds, in
      that order, each paired with the literal of its field. */
  lemma TipoColumns(rec: Record)
    ensures var sel := Kept(TipoMapping, rec, {});
      && Targets(sel) == (if "TIPO" in rec then ["tipo"] else [])
                         + (if "DIARIA" in rec then ["diaria"] else [])
                         + (if "GUINCHO" in rec then ["guincho"] else [])
      && Literals(TipoEscape, rec, sel) == (if "TIPO" in rec then [TipoEscape(rec["TIPO"])] else [])
                         + (if "DIARIA" in rec then [TipoEscape(rec["DIARIA"])] else [])
                         + (if "GUINCHO" in rec then [TipoEscape(rec["GUINCHO"])] else [])
  {
    TipoSelection(rec);
  }

  /** A row with none of the three fields gives an INSERT with no columns. */
  lemma TipoEmptyRow(rec: Record)
    requires "TIPO" !in rec && "DIARIA" !in rec && "GUINCHO" !in rec
    ensures TipoStatement(rec, TipoTable) == "INSERT INTO tipoVeiculos () VALUES ();\n"
  {
    TipoColumns(rec);
  }
}
