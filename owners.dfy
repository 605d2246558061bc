/** `generate_client_sql` of main.py: one client row becomes one INSERT into
    `proprietarios`, after its three notes fields are merged into OBS1. */
module Owners {
  import opened Outcomes
  import opened Numerals
  import opened PyStrings
  import opened PyValues
  import opened Escaping
  import opened Fields

  const OwnerTable := "proprietarios"

  const OwnerMapping: FieldMapping := [
    ("NMCLIENT", "nome_completo"),
    ("ENCLIENT", "endereco"),
    ("BRCLIENT", "bairro"),
    ("CICLIENT", "cidade"),
    ("ESCLIENT", "estado"),
    ("CECLIENT", "cep"),
    ("CGCLIENT", "cnpj_cpf"),
    ("IECLIENT", "insc_est_rg"),
    ("FNCLIENT", "celular"),
    ("OBS1", "observacoes")
  ]

  /** Fields never emitted as columns. */
  const OwnerIgnored: set<string> := {"FDCLIENT", "FACLIENT", "ULTIMO"}

  /** The three free-text notes fields, in the order they are merged. */
  const NotesKeys: seq<string> := ["OBS1", "OBS2", "OBS3"]

  /** `record.get(key, '')` used where text is required: any other kind of value
      makes the later `join` or `+` raise a TypeError. */
  function NotesField(rec: Record, key: string): Result<string>
  {
    match Get(rec, key, Text(""))
    case Text(s) => Success(s)
    case _ => Failure(TypeError(key))
  }

  /** `'\n'.join([OBS1, OBS2, OBS3]).strip()`, a missing field read as `''`. */
  function MergedNotes(rec: Record): Result<string>
  {
    var o1 :- NotesField(rec, "OBS1");
    var o2 :- NotesField(rec, "OBS2");
    var o3 :- NotesField(rec, "OBS3");
    Success(Strip(Join([o1, o2, o3], "\n")))
  }

  /** The statement for a client row (CLICOD already removed) and its new id. */
  function OwnerStatement(clientData: Record, newId: int): Result<string>
  {
    var notes :- MergedNotes(clientData);
    Success(OwnerInsert(clientData["OBS1" := Text(notes)], newId))
  }

  /** The statement for a row whose notes are already merged. */
  function OwnerInsert(rec: Record, newId: int): string
  {
    var sel := Kept(OwnerMapping, rec, OwnerIgnored);
    "INSERT INTO " + OwnerTable + " (id, " + Join(Dedup(Targets(sel)), ", ")
    + ") VALUES (" + IntToString(newId) + ", " + Join(Literals(Escape, rec, sel), ", ") + ");\n"
  }

  /** The client row the builder receives; the builder writes the merged notes
      back into it. */
  class ClientData {
    var fields: Record

    constructor (fields: Record)
      ensures this.fields == fields
    {
      this.fields := fields;
    }
  }

  /** Builds the statement; on success the row's OBS1 now holds the merged notes,
      on failure the row is untouched. */
  method GenerateClientSql(clientData: ClientData, newId: int) returns (r: Result<string>)
    modifies clientData
    ensures r == OwnerStatement(old(clientData.fields), newId)
    ensures r.Success? ==>
      clientData.fields == old(clientData.fields)["OBS1" := Text(MergedNotes(old(clientData.fields)).value)]
    ensures r.Failure? ==> clientData.fields == old(clientData.fields)
  {
    var notes := MergedNotes(clientData.fields);
    if notes.Failure? {
      return Failure(notes.error);
    }
    var fields := clientData.fields["OBS1" := Text(notes.value)];
    clientData.fields := fields;
    var columns := Targets(Kept(OwnerMapping, fields, OwnerIgnored));
    var values: seq<string> := [];
    for i := 0 to |OwnerMapping|
      invariant clientData.fields == fields
      invariant values == Literals(Escape, fields, Kept(OwnerMapping[..i], fields, OwnerIgnored))
    {
      var dbfField := OwnerMapping[i].0;
      LiteralsStep(Escape, fields, OwnerIgnored, OwnerMapping, i);
      if dbfField in fields && dbfField !in OwnerIgnored {
        values := values + [Escape(Get(fields, dbfField, Text("")))];
      }
    }
    assert OwnerMapping[..|OwnerMapping|] == OwnerMapping;
    columns := Dedup(columns);
    r := Success("INSERT INTO " + OwnerTable + " (id, " + Join(columns, ", ")
                 + ") VALUES (" + IntToString(newId) + ", " + Join(values, ", ") + ");\n");
  }

  lemma JoinThree(a: string, b: string, c: string, sep: string)
    ensures Join([a, b, c], sep) == a + sep + b + sep + c
  {
    assert [a, b, c][..2] == [a, b];
    assert [a, b][..1] == [a];
    assert Join([a], sep) == a;
    assert Join([a, b], sep) == a + sep + b;
  }

  /** The merge fails exactly when a notes field holds something other than text,
      and then names such a field; otherwise it is the three texts (missing ones
      empty) joined by line breaks and stripped. */
  lemma MergedNotesSpec(rec: Record)
    ensures MergedNotes(rec).Success? <==> forall k :: k in NotesKeys && k in rec ==> rec[k].Text?
    ensures MergedNotes(rec).Failure? ==>
      var k := MergedNotes(rec).error.key;
      MergedNotes(rec).error.TypeError? && k in NotesKeys && k in rec && !rec[k].Text?
    ensures MergedNotes(rec).Success? ==>
      MergedNotes(rec).value == Strip(Get(rec, "OBS1", Text("")).s + "\n"
                                      + Get(rec, "OBS2", Text("")).s + "\n"
                                      + Get(rec, "OBS3", Text("")).s)
  {
    if MergedNotes(rec).Success? {
      JoinThree(Get(rec, "OBS1", Text("")).s, Get(rec, "OBS2", Text("")).s, Get(rec, "OBS3", Text("")).s, "\n");
    }
  }

  predicate AllSpace(s: string)
  {
    forall k :: 0 <= k < |s| ==> IsSpace(s[k])
  }

  /** The notes literal is `NULL` exactly when all three notes are blank. */
  lemma NotesNullWhenBlank(rec: Record)
    requires MergedNotes(rec).Success?
    ensures Escape(Text(MergedNotes(rec).value)) == "NULL" <==>
      AllSpace(Get(rec, "OBS1", Text("")).s) && AllSpace(Get(rec, "OBS2", Text("")).s)
      && AllSpace(Get(rec, "OBS3", Text("")).s)
  {
    var o1, o2, o3 := Get(rec, "OBS1", Text("")).s, Get(rec, "OBS2", Text("")).s, Get(rec, "OBS3", Text("")).s;
    MergedNotesSpec(rec);
    var joined := o1 + "\n" + o2 + "\n" + o3;
    StripEmpty(joined);
    EscapeIsNull(Text(MergedNotes(rec).value));
    if AllSpace(o1) && AllSpace(o2) && AllSpace(o3) {
      forall k | 0 <= k < |joined|
        ensures IsSpace(joined[k])
      {
        if k < |o1| {
          assert joined[k] == o1[k];
        } else if k == |o1| {
        } else if k < |o1| + 1 + |o2| {
          assert joined[k] == o2[k - |o1| - 1];
        } else if k == |o1| + 1 + |o2| {
        } else {
          assert joined[k] == o3[k - |o1| - |o2| - 2];
        }
      }
    }
    if AllSpace(joined) {
      forall k | 0 <= k < |o1| ensures IsSpace(o1[k]) { assert joined[k] == o1[k]; }
      forall k | 0 <= k < |o2| ensures IsSpace(o2[k]) { assert joined[|o1| + 1 + k] == o2[k]; }
      forall k | 0 <= k < |o3| ensures IsSpace(o3[k]) { assert joined[|o1| + |o2| + 2 + k] == o3[k]; }
    }
  }

  lemma OwnerTargetsDistinct()
    ensures Distinct(Targets(OwnerMapping))
  {
    var t := Targets(OwnerMapping);
    assert t == ["nome_completo", "endereco", "bairro", "cidade", "estado", "cep",
                 "cnpj_cpf", "insc_est_rg", "celular", "observacoes"];
  }

  /** For a row that holds OBS1 (every row does after the merge), the selected
      entries are exactly the mapping entries whose field the row holds: the
      ignore set removes none of them. Their target columns are distinct, and the
      last one is OBS1 under `observacoes`. */
  lemma OwnerSelection(rec: Record)
    requires "OBS1" in rec
    ensures var sel := Kept(OwnerMapping, rec, OwnerIgnored);
      && (forall p :: p in sel <==> p in OwnerMapping && p.0 in rec)
      && Distinct(Targets(sel))
      && |sel| >= 1 && sel[|sel| - 1] == ("OBS1", "observacoes")
  {
    var sel := Kept(OwnerMapping, rec, OwnerIgnored);
    KeptComplete(OwnerMapping, rec, OwnerIgnored);
    forall p | p in OwnerMapping
      ensures p.0 !in OwnerIgnored
    {
    }
    OwnerTargetsDistinct();
    KeptTargetsDistinct(OwnerMapping, rec, OwnerIgnored);
    var last := OwnerMapping[|OwnerMapping| - 1];
    assert Keep(rec, OwnerIgnored, last);
    assert sel == Kept(OwnerMapping[..|OwnerMapping| - 1], rec, OwnerIgnored) + [last];
  }

  /** For a row whose notes merge, the statement is `INSERT INTO proprietarios
      (id, <cols>) VALUES (<new id>, <vals>);` with the id first and bare; the
      de-duplication of the columns changes nothing, so columns and literals pair
      up one to one; and the last column is always `observacoes`, holding the
      merged notes. */
  lemma OwnerRow(clientData: Record, newId: int)
    requires MergedNotes(clientData).Success?
    ensures var notes := MergedNotes(clientData).value;
      var rec := clientData["OBS1" := Text(notes)];
      var sel := Kept(OwnerMapping, rec, OwnerIgnored);
      && OwnerStatement(clientData, newId)
         == Success("INSERT INTO " + OwnerTable + " (id, " + Join(Targets(sel), ", ") + ") VALUES ("
                    + IntToString(newId) + ", " + Join(Literals(Escape, rec, sel), ", ") + ");\n")
      && |sel| >= 1
      && Targets(sel)[|sel| - 1] == "observacoes"
      && Literals(Escape, rec, sel)[|sel| - 1] == Escape(Text(notes))
  {
    var notes := MergedNotes(clientData).value;
    var rec := clientData["OBS1" := Text(notes)];
    var sel := Kept(OwnerMapping, rec, OwnerIgnored);
    var cols := Targets(sel);
    var vals := Literals(Escape, rec, sel);
    OwnerSelection(rec);
    DedupOfDistinct(cols);
    assert OwnerStatement(clientData, newId) == Success(OwnerInsert(rec, newId));
  }

  /** A row holding only the name and the notes selects none of the entries
      between them. */
  lemma AddressFieldsUnselected(rec: Record)
    requires forall k :: k in rec ==> k == "NMCLIENT" || k == "OBS1"
    ensures Kept(OwnerMapping[1..9], rec, OwnerIgnored) == []
  {
    var middle := OwnerMapping[1..9];
    assert middle == [("ENCLIENT", "endereco"), ("BRCLIENT", "bairro"), ("CICLIENT", "cidade"),
                      ("ESCLIENT", "estado"), ("CECLIENT", "cep"), ("CGCLIENT", "cnpj_cpf"),
                      ("IECLIENT", "insc_est_rg"), ("FNCLIENT", "celular")];
    KeptNone(middle, rec, OwnerIgnored);
  }

  /** A merged row whose only mapped fields are the name and the notes selects
      those two entries, in mapping order. */
  lemma NameAndNotesSelection(rec: Record)
    requires "NMCLIENT" in rec && "OBS1" in rec
    requires forall k :: k in rec ==> k == "NMCLIENT" || k == "OBS1"
    ensures Kept(OwnerMapping, rec, OwnerIgnored) == [("NMCLIENT", "nome_completo"), ("OBS1", "observacoes")]
  {
    var first, middle, last := [OwnerMapping[0]], OwnerMapping[1..9], [OwnerMapping[9]];
    assert OwnerMapping == first + middle + last;
    AddressFieldsUnselected(rec);
    assert "NMCLIENT" !in OwnerIgnored && "OBS1" !in OwnerIgnored;
    assert Kept(first, rec, OwnerIgnored) == first by {
      assert first[..0] == [];
    }
    assert Kept(last, rec, OwnerIgnored) == last by {
      assert last[..0] == [];
    }
    KeptAppend(first + middle, last, rec, OwnerIgnored);
    KeptAppend(first, middle, rec, OwnerIgnored);
  }

  /** The columns of a merged row holding only the name and the notes. */
  lemma NameAndNotesColumns(rec: Record)
    requires "NMCLIENT" in rec && "OBS1" in rec
    requires forall k :: k in rec ==> k == "NMCLIENT" || k == "OBS1"
    ensures Join(Targets(Kept(OwnerMapping, rec, OwnerIgnored)), ", ") == "nome_completo, observacoes"
  {
    var sel := Kept(OwnerMapping, rec, OwnerIgnored);
    NameAndNotesSelection(rec);
    assert Targets(sel) == ["nome_completo"] + ["observacoes"];
    JoinCons("nome_completo", ["observacoes"], ", ");
  }

  /** The literals of a merged row holding only the name and the notes. */
  lemma NameAndNotesLiterals(rec: Record)
    requires "NMCLIENT" in rec && "OBS1" in rec
    requires forall k :: k in rec ==> k == "NMCLIENT" || k == "OBS1"
    ensures var sel := Kept(OwnerMapping, rec, OwnerIgnored);
      Join(Literals(Escape, rec, sel), ", ") == Escape(rec["NMCLIENT"]) + ", " + Escape(rec["OBS1"])
  {
    var sel := Kept(OwnerMapping, rec, OwnerIgnored);
    NameAndNotesSelection(rec);
    var name, notes := Escape(rec["NMCLIENT"]), Escape(rec["OBS1"]);
    assert Literals(Escape, rec, sel) == [name] + [notes];
    JoinCons(name, [notes], ", ");
  }

  /** A row with none of the three notes fields merges to empty notes. */
  lemma NoNotesMerge(rec: Record)
    requires "OBS1" !in rec && "OBS2" !in rec && "OBS3" !in rec
    ensures MergedNotes(rec) == Success("")
  {
    JoinThree("", "", "", "\n");
    assert Join(["", "", ""], "\n") == "\n\n";
    StripEmpty("\n\n");
    assert IsSpace("\n\n"[0]) && IsSpace("\n\n"[1]);
  }

  /** Quotes in a name are doubled inside its literal. The name is a parameter
      fixed by the precondition so that the solver keeps the literal abstract. */
  lemma NicknameLiteral(name: string)
    requires name == "Jane \"J\" Doe"
    ensures Escape(Text(name)) == "\"Jane \"\"J\"\" Doe\""
  {
    EmbeddedQuotesDoubled("Jane ", "J", " Doe");
    assert name == "Jane " + "\"" + "J" + "\"" + " Doe";
  }

  /** A row holding only a name: the statement carries the name and, since the
      notes field is always written back, an `observacoes` column with `NULL`. */
  lemma NameOnlyRow(clientData: Record, newId: int)
    requires clientData.Keys == {"NMCLIENT"}
    ensures OwnerStatement(clientData, newId)
      == Success("INSERT INTO " + OwnerTable + " (id, " + "nome_completo, observacoes" + ") VALUES ("
                 + IntToString(newId) + ", " + Escape(clientData["NMCLIENT"]) + ", " + "NULL" + ");\n")
  {
    var rec := clientData["OBS1" := Text("")];
    NoNotesMerge(clientData);
    OwnerRow(clientData, newId);
    NameOnlyColumns(clientData);
    var cols := Join(Targets(Kept(OwnerMapping, rec, OwnerIgnored)), ", ");
    Regroup("INSERT INTO " + OwnerTable + " (id, " + cols + ") VALUES (" + IntToString(newId) + ", ",
            Escape(clientData["NMCLIENT"]), ", ", "NULL");
  }

  /** The row `{NMCLIENT: 'Jane "J" Doe'}` with new id 1. The name is a parameter
      fixed by the precondition so that the solver keeps the literal abstract. */
  lemma NameOnlyExample(name: string)
    requires name == "Jane \"J\" Doe"
    ensures OwnerStatement(map["NMCLIENT" := Text(name)], 1)
      == Success("INSERT INTO " + OwnerTable + " (id, " + "nome_completo, observacoes" + ") VALUES ("
                 + "1" + ", " + "\"Jane \"\"J\"\" Doe\"" + ", " + "NULL" + ");\n")
  {
    var clientData := map["NMCLIENT" := Text(name)];
    assert clientData.Keys == {"NMCLIENT"};
    NameOnlyRow(clientData, 1);
    NicknameLiteral(name);
    assert IntToString(1) == "1";
  }

  /** The columns and literals of a name-only row once its empty notes are
      written back. */
  lemma NameOnlyColumns(clientData: Record)
    requires clientData.Keys == {"NMCLIENT"}
    ensures var rec := clientData["OBS1" := Text("")];
      var sel := Kept(OwnerMapping, rec, OwnerIgnored);
      && Join(Targets(sel), ", ") == "nome_completo, observacoes"
      && Join(Literals(Escape, rec, sel), ", ") == Escape(clientData["NMCLIENT"]) + ", " + "NULL"
  {
    var rec := clientData["OBS1" := Text("")];
    NameAndNotesColumns(rec);
    NameAndNotesLiterals(rec);
    assert rec["NMCLIENT"] == clientData["NMCLIENT"] && rec["OBS1"] == Text("");
  }

  /** Concatenation regrouped, kept apart so the long literals above stay abstract. */
  lemma Regroup(p: string, a: string, b: string, c: string)
    ensures p + (a + b + c) == p + a + b + c
  {
  }
}
