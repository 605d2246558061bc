/** `generate_vehicle_sql` of main.py: one vehicle row becomes one INSERT that
    carries every mapped field, the new id of its owner and its notes. */
module Vehicles {
  import opened Outcomes
  import opened Numerals
  import opened PyStrings
  import opened PyValues
  import opened Escaping
  import opened Fields
  import opened Owners

  const VehicleTable := "veiculos"

  const VehicleMapping: FieldMapping := [
    ("PLACA", "placa"),
    ("MARCA", "marca"),
    ("TIPO", "tipo"),
    ("APREEN", "apr_detran"),
    ("MODELO", "modelo"),
    ("COR", "cor"),
    ("RENAVAM", "renavam"),
    ("CHASSI", "chassi"),
    ("MOTIVO", "motivo"),
    ("PERICC", "pericia_ic"),
    ("DATENT", "dt_entrada"),
    ("DATLIB", "dt_liberacao")
  ]

  /** The fields whose falsy values are written as `NULL`. The entry date is listed
      as DATAENT while the mapping reads it from DATENT. */
  const NullableDateKeys: seq<string> := ["DATAENT", "DATLIB"]

  /** The literal for one mapped field: a date quoted as `YYYY-MM-DD`, a falsy value
      of a nullable date field `NULL`, anything else escaped. */
  function FormatField(key: string, v: Value): string
  {
    if v.Date? then Quote(IsoDate(v.date))
    else if key in NullableDateKeys && Falsy(v) then "NULL"
    else Escape(v)
  }

  /** The literals of every mapped field, present or not, in mapping order. */
  function FieldLiterals(rec: Record, m: FieldMapping): seq<string>
  {
    seq(|m|, k requires 0 <= k < |m| => FormatField(m[k].0, Get(rec, m[k].0, Text(""))))
  }

  /** `str(new_id_map.get(CODCLI, "NULL"))`, a missing CODCLI read as None. */
  function OwnerRef(rec: Record, idMap: map<Value, int>): string
  {
    var codcli := Get(rec, "CODCLI", Absent);
    if codcli in idMap then IntToString(idMap[codcli]) else "NULL"
  }

  /** `OBS1 + '\n' + OBS2 + '\n' + OBS3`, missing fields read as `''`; a value that
      is not text makes `+` raise a TypeError. */
  function ConcatNotes(rec: Record): Result<string>
  {
    var o1 :- NotesField(rec, "OBS1");
    var o2 :- NotesField(rec, "OBS2");
    var o3 :- NotesField(rec, "OBS3");
    Success(o1 + "\n" + o2 + "\n" + o3)
  }

  /** The statement for a vehicle row, given the owner id map, the field mapping
      and the table name. */
  function VehicleStatement(rec: Record, idMap: map<Value, int>, m: FieldMapping, table: string): Result<string>
  {
    var obs :- ConcatNotes(rec);
    Success(Insert(table, Targets(m) + ["proprietario_cod", "obs"],
                   FieldLiterals(rec, m) + [OwnerRef(rec, idMap), Escape(Text(obs))]))
  }

  /** Builds the statement; neither the row nor the id map is changed. */
  method GenerateVehicleSql(vehicleData: Record, newIdMap: map<Value, int>, fieldMapping: FieldMapping,
                            tableName: string)
    returns (r: Result<string>)
    ensures r == VehicleStatement(vehicleData, newIdMap, fieldMapping, tableName)
  {
    var values: seq<string> := [];
    var columns: seq<string> := [];
    for i := 0 to |fieldMapping|
      invariant values == FieldLiterals(vehicleData, fieldMapping[..i])
      invariant columns == Targets(fieldMapping[..i])
    {
      var (dbfField, sqlField) := fieldMapping[i];
      var value := Get(vehicleData, dbfField, Text(""));
      var formatted;
      if value.Date? {
        formatted := Quote(IsoDate(value.date));
      } else if dbfField in NullableDateKeys && Falsy(value) {
        formatted := "NULL";
      } else {
        formatted := Escape(value);
      }
      assert fieldMapping[..i + 1] == fieldMapping[..i] + [fieldMapping[i]];
      values := values + [formatted];
      columns := columns + [sqlField];
    }
    assert fieldMapping[..|fieldMapping|] == fieldMapping;
    ghost var fieldValues, fieldColumns := values, columns;

    var codcli := Get(vehicleData, "CODCLI", Absent);
    var ownerId := if codcli in newIdMap then IntToString(newIdMap[codcli]) else "NULL";
    values := values + [ownerId];
    columns := columns + ["proprietario_cod"];

    var obs1 := Get(vehicleData, "OBS1", Text(""));
    var obs2 := Get(vehicleData, "OBS2", Text(""));
    var obs3 := Get(vehicleData, "OBS3", Text(""));
    if !obs1.Text? {
      return Failure(TypeError("OBS1"));
    }
    if !obs2.Text? {
      return Failure(TypeError("OBS2"));
    }
    if !obs3.Text? {
      return Failure(TypeError("OBS3"));
    }
    assert ConcatNotes(vehicleData) == Success(obs1.s + "\n" + obs2.s + "\n" + obs3.s);
    values := values + [Escape(Text(obs1.s + "\n" + obs2.s + "\n" + obs3.s))];
    columns := columns + ["obs"];
    assert columns == fieldColumns + ["proprietario_cod", "obs"];
    assert values == fieldValues + [ownerId, Escape(Text(obs1.s + "\n" + obs2.s + "\n" + obs3.s))];
    r := Success("INSERT INTO " + tableName + " (" + Join(columns, ", ") + ") VALUES ("
                 + Join(values, ", ") + ");\n");
  }

  /** The vehicle notes fail exactly when the owner notes do, for the same field;
      on success the owner notes are the vehicle notes stripped. */
  lemma ConcatNotesSpec(rec: Record)
    ensures ConcatNotes(rec).Success? <==> forall k :: k in NotesKeys && k in rec ==> rec[k].Text?
    ensures ConcatNotes(rec).Failure? ==> MergedNotes(rec) == Failure(ConcatNotes(rec).error)
    ensures ConcatNotes(rec).Success? ==> MergedNotes(rec) == Success(Strip(ConcatNotes(rec).value))
  {
    MergedNotesSpec(rec);
  }

  /** The statement fails exactly when a notes field holds something other than
      text, and then names such a field; the mapped fields never make it fail. */
  lemma VehicleFailure(rec: Record, idMap: map<Value, int>, m: FieldMapping, table: string)
    ensures VehicleStatement(rec, idMap, m, table).Success?
      <==> forall k :: k in NotesKeys && k in rec ==> rec[k].Text?
    ensures VehicleStatement(rec, idMap, m, table).Failure? ==>
      var e := VehicleStatement(rec, idMap, m, table).error;
      e.TypeError? && e.key in NotesKeys && e.key in rec && !rec[e.key].Text?
  {
    ConcatNotesSpec(rec);
    MergedNotesSpec(rec);
  }

  /** On success the statement is `INSERT INTO <table> (<cols>) VALUES (<vals>);`
      with no id column: one column per mapping entry, in order, each paired with
      the literal of its field, then `proprietario_cod` with the owner reference,
      then `obs` with the notes. */
  lemma VehicleRow(rec: Record, idMap: map<Value, int>, m: FieldMapping, table: string)
    requires ConcatNotes(rec).Success?
    ensures var cols := Targets(m) + ["proprietario_cod", "obs"];
      var vals := FieldLiterals(rec, m) + [OwnerRef(rec, idMap), Escape(Text(ConcatNotes(rec).value))];
      && VehicleStatement(rec, idMap, m, table) == Success(Insert(table, cols, vals))
      && |cols| == |vals| == |m| + 2
      && (forall k :: 0 <= k < |m| ==>
            cols[k] == m[k].1 && vals[k] == FormatField(m[k].0, Get(rec, m[k].0, Text(""))))
      && cols[|m|] == "proprietario_cod" && vals[|m|] == OwnerRef(rec, idMap)
      && cols[|m| + 1] == "obs" && vals[|m| + 1] == Escape(Text(ConcatNotes(rec).value))
  {
  }

  /** A mapped field the row does not hold is still emitted, as `NULL`. */
  lemma MissingFieldNull(rec: Record, m: FieldMapping, k: nat)
    requires k < |m| && m[k].0 !in rec
    ensures FieldLiterals(rec, m)[k] == "NULL"
  {
  }

  /** Outside the nullable date fields a field is escaped as `escape_sql_string`
      does, dates included. */
  lemma PlainFieldEscaped(key: string, v: Value)
    requires key != "DATAENT" && key != "DATLIB"
    ensures FormatField(key, v) == Escape(v)
  {
  }

  /** The exit date is `NULL` exactly when its value is falsy (a float is left
      aside: its text is whatever `str()` gives); a date is quoted `YYYY-MM-DD`. */
  lemma ExitDateNull(v: Value)
    ensures v.Date? ==> FormatField("DATLIB", v) == Quote(IsoDate(v.date))
    ensures !v.Float? ==> (FormatField("DATLIB", v) == "NULL" <==> Falsy(v))
  {
    if !v.Float? && !v.Date? {
      EscapeIsNull(v);
    }
  }

  /** The entry date is read from DATENT, which is not a nullable date field: a
      zero or false entry date is written as `0` or `False`, where the exit date
      would be `NULL`. */
  lemma EntryDateNotNulled()
    ensures "DATENT" !in NullableDateKeys
    ensures FormatField("DATENT", Int(0)) == "0"
    ensures FormatField("DATLIB", Int(0)) == "NULL"
    ensures FormatField("DATENT", Bool(false)) == "False"
  {
    assert IntToString(0) == "0";
  }

  /** The owner reference is `NULL` exactly when the row's CODCLI (None when
      missing) is not a key of the id map; otherwise it is the bare id, which reads
      back as the number. */
  lemma OwnerRefSpec(rec: Record, idMap: map<Value, int>)
    ensures var codcli := Get(rec, "CODCLI", Absent);
      && (OwnerRef(rec, idMap) == "NULL" <==> codcli !in idMap)
      && (codcli in idMap ==> ParseInt(OwnerRef(rec, idMap)) == Some(idMap[codcli]))
  {
    var codcli := Get(rec, "CODCLI", Absent);
    if codcli in idMap {
      IntToStringRoundTrip(idMap[codcli]);
    }
  }

  /** The notes literal is never `NULL`: the concatenation holds two line breaks
      even when every field is blank, and it is not stripped. It is quoted, holds
      no raw line break, and reads back as the concatenation with each line break
      written as backslash-n. */
  lemma NotesLiteral(rec: Record)
    requires ConcatNotes(rec).Success?
    ensures var obs := ConcatNotes(rec).value;
      var r := Escape(Text(obs));
      && |obs| >= 2 && r != "NULL"
      && r[0] == '"' && r[|r| - 1] == '"' && '\n' !in r
      && CollapseQuotes(r[1..|r| - 1]) == Some(Replace(obs, '\n', "\\n"))
  {
    var obs := ConcatNotes(rec).value;
    TextLiteral(obs);
  }

  /** A row with no notes at all gets the two escaped line breaks, quoted. */
  lemma BlankNotesLiteral(rec: Record)
    requires "OBS1" !in rec && "OBS2" !in rec && "OBS3" !in rec
    ensures ConcatNotes(rec) == Success("\n\n")
    ensures Escape(Text(ConcatNotes(rec).value)) == "\"\\n\\n\""
  {
    assert "" + "\n" + "" + "\n" + "" == "\n\n";
    assert EscapeText("\n\n") == "\\n\\n" by {
      EscapeTextCons('\n', "\n");
      EscapeTextCons('\n', "");
      EscapeTextPlain("");
    }
  }

  /** The vehicle statement has fourteen columns, `dt_entrada` read from DATENT,
      and no `id` column. */
  lemma VehicleColumns()
    ensures var cols := Targets(VehicleMapping) + ["proprietario_cod", "obs"];
      && cols == ["placa", "marca", "tipo", "apr_detran", "modelo", "cor", "renavam", "chassi",
                  "motivo", "pericia_ic", "dt_entrada", "dt_liberacao", "proprietario_cod", "obs"]
      && "id" !in cols
      && VehicleMapping[10] == ("DATENT", "dt_entrada")
  {
  }
}
