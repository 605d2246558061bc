/** The two passes of main.py's `main`, without the table reading and the file
    writing: every client row gets the next id and an owner statement, then every
    vehicle row gets a statement that refers to its owner through those ids. */
module Migration {
  import opened Outcomes
  import opened Numerals
  import opened PyValues
  import opened Fields
  import opened Owners
  import opened Vehicles

  /** The first id handed out. */
  const StartId := 1

  /** The client code of a row, None when the row has none. */
  function ClientKey(rec: Record): Value
  {
    Get(rec, "CLICOD", Absent)
  }

  /** A builder of the statement for a client row (CLICOD removed) and its new id. */
  type ClientBuilder = (Record, int) -> Result<string>

  /** What one client row yields with the given id: `record['CLICOD']` raises a
      KeyError when the field is missing; otherwise the statement the builder
      makes of the row without CLICOD. */
  function ClientStatement(build: ClientBuilder, rec: Record, newId: int): Result<string>
  {
    if "CLICOD" !in rec then Failure(KeyError("CLICOD")) else build(rec - {"CLICOD"}, newId)
  }

  /** The state the client pass builds: client code to new id, and the statements. */
  datatype OwnerOutput = OwnerOutput(ids: map<Value, int>, sqls: seq<string>)

  /** The client pass over the rows in order, ids counting up from `startId`;
      the first failing row stops it. `main` runs it with `generate_client_sql`,
      that is `OwnerPass(OwnerStatement, clients, StartId)`. */
  function OwnerPass(build: ClientBuilder, records: seq<Record>, startId: int): Result<OwnerOutput>
  {
    if records == [] then Success(OwnerOutput(map[], []))
    else
      var prev :- OwnerPass(build, records[..|records| - 1], startId);
      var rec := records[|records| - 1];
      var newId := startId + |records| - 1;
      var sql :- ClientStatement(build, rec, newId);
      Success(OwnerOutput(prev.ids[rec["CLICOD"] := newId], prev.sqls + [sql]))
  }

  /** Once a prefix of the rows fails, the whole pass fails the same way. */
  lemma {:induction false} OwnerPassPrefixFailure(build: ClientBuilder, records: seq<Record>, startId: int, j: nat)
    requires j <= |records| && OwnerPass(build, records[..j], startId).Failure?
    ensures OwnerPass(build, records, startId) == OwnerPass(build, records[..j], startId)
    decreases |records| - j
  {
    if j < |records| {
      var init := records[..|records| - 1];
      assert init[..j] == records[..j];
      OwnerPassPrefixFailure(build, init, startId, j);
    } else {
      assert records[..j] == records;
    }
  }

  /** One more row extends a successful pass with its code, its id and its
      statement, or fails with that row's error. */
  lemma OwnerPassExtend(build: ClientBuilder, records: seq<Record>, startId: int, i: nat, out: OwnerOutput)
    requires i < |records| && OwnerPass(build, records[..i], startId) == Success(out)
    ensures var row := ClientStatement(build, records[i], startId + i);
      && (row.Failure? ==> OwnerPass(build, records[..i + 1], startId) == Failure(row.error))
      && (row.Success? ==>
            && "CLICOD" in records[i]
            && OwnerPass(build, records[..i + 1], startId)
               == Success(OwnerOutput(out.ids[records[i]["CLICOD"] := startId + i], out.sqls + [row.value])))
  {
    assert records[..i + 1][..i] == records[..i];
  }

  /** The loop of `main` over the client table. Each row is copied without CLICOD
      into a fresh dict, which the builder updates. */
  method AssignOwnerIds(records: seq<Record>, startId: int) returns (r: Result<OwnerOutput>)
    ensures r == OwnerPass(OwnerStatement, records, startId)
  {
    var clientesMap: map<Value, int> := map[];
    var currentId := startId;
    var sqlClientes: seq<string> := [];
    for i := 0 to |records|
      invariant currentId == startId + i
      invariant OwnerPass(OwnerStatement, records[..i], startId) == Success(OwnerOutput(clientesMap, sqlClientes))
    {
      var rec := records[i];
      OwnerPassExtend(OwnerStatement, records, startId, i, OwnerOutput(clientesMap, sqlClientes));
      if "CLICOD" !in rec {
        OwnerPassPrefixFailure(OwnerStatement, records, startId, i + 1);
        return Failure(KeyError("CLICOD"));
      }
      var clicod := rec["CLICOD"];
      var clientData := new ClientData(rec - {"CLICOD"});
      clientesMap := clientesMap[clicod := currentId];
      var sql := GenerateClientSql(clientData, currentId);
      assert sql == ClientStatement(OwnerStatement, rec, startId + i);
      if sql.Failure? {
        OwnerPassPrefixFailure(OwnerStatement, records, startId, i + 1);
        return Failure(sql.error);
      }
      sqlClientes := sqlClientes + [sql.value];
      currentId := currentId + 1;
    }
    assert records[..|records|] == records;
    r := Success(OwnerOutput(clientesMap, sqlClientes));
  }

  /** The pass succeeds exactly when every row does with its id (`startId` plus its
      position); then the i-th statement is the i-th row's. On failure the error
      is that of the first failing row. */
  lemma {:induction false} OwnerPassSpec(build: ClientBuilder, records: seq<Record>, startId: int)
    ensures OwnerPass(build, records, startId).Success?
      <==> forall i :: 0 <= i < |records| ==> ClientStatement(build, records[i], startId + i).Success?
    ensures OwnerPass(build, records, startId).Success? ==>
      var sqls := OwnerPass(build, records, startId).value.sqls;
      && |sqls| == |records|
      && forall i :: 0 <= i < |records| ==> sqls[i] == ClientStatement(build, records[i], startId + i).value
    ensures OwnerPass(build, records, startId).Failure? ==>
      exists i :: 0 <= i < |records|
        && ClientStatement(build, records[i], startId + i) == Failure(OwnerPass(build, records, startId).error)
        && forall j :: 0 <= j < i ==> ClientStatement(build, records[j], startId + j).Success?
  {
    if records != [] {
      var n := |records| - 1;
      var init := records[..n];
      OwnerPassSpec(build, init, startId);
      assert forall i :: 0 <= i < n ==> records[i] == init[i];
      if OwnerPass(build, init, startId).Failure? {
        var i :| 0 <= i < n
          && ClientStatement(build, init[i], startId + i) == Failure(OwnerPass(build, init, startId).error)
          && forall j :: 0 <= j < i ==> ClientStatement(build, init[j], startId + j).Success?;
        assert ClientStatement(build, records[i], startId + i).Failure?;
      }
    }
  }

  /** Row i carries client code k and no later row does. */
  predicate LastWithKey(records: seq<Record>, k: Value, i: int)
  {
    0 <= i < |records| && ClientKey(records[i]) == k
    && forall j :: i < j < |records| ==> ClientKey(records[j]) != k
  }

  /** After a successful pass every row has a CLICOD, the id map holds exactly
      the client codes of the rows, and each code maps to the id of the last row
      carrying it: a repeated code is overwritten. */
  lemma {:induction false} OwnerIdsSpec(build: ClientBuilder, records: seq<Record>, startId: int)
    requires OwnerPass(build, records, startId).Success?
    ensures forall i :: 0 <= i < |records| ==> "CLICOD" in records[i]
    ensures var ids := OwnerPass(build, records, startId).value.ids;
      && (forall i :: 0 <= i < |records| ==> ClientKey(records[i]) in ids)
      && (forall k :: k in ids ==> exists i :: LastWithKey(records, k, i) && ids[k] == startId + i)
  {
    if records != [] {
      var n := |records| - 1;
      var init := records[..n];
      OwnerIdsSpec(build, init, startId);
      var ids := OwnerPass(build, records, startId).value.ids;
      var prev := OwnerPass(build, init, startId).value.ids;
      var key := ClientKey(records[n]);
      assert "CLICOD" in records[n] && ids == prev[key := startId + n];
      forall i | 0 <= i < |records|
        ensures "CLICOD" in records[i] && ClientKey(records[i]) in ids
      {
        if i < n {
          assert records[i] == init[i];
        }
      }
      forall k | k in ids
        ensures exists i :: LastWithKey(records, k, i) && ids[k] == startId + i
      {
        if k != key {
          var i :| LastWithKey(init, k, i) && prev[k] == startId + i;
          forall j | i < j < |records|
            ensures ClientKey(records[j]) != k
          {
            if j < n {
              assert records[j] == init[j];
            }
          }
          assert records[i] == init[i];
          assert LastWithKey(records, k, i);
        } else {
          assert LastWithKey(records, k, n);
        }
      }
    }
  }

  /** With distinct client codes, the row at position i gets id `startId + i`. */
  lemma DistinctKeysIds(build: ClientBuilder, records: seq<Record>, startId: int, i: nat)
    requires OwnerPass(build, records, startId).Success?
    requires forall a, b :: 0 <= a < b < |records| ==> ClientKey(records[a]) != ClientKey(records[b])
    requires i < |records|
    ensures var ids := OwnerPass(build, records, startId).value.ids;
      ClientKey(records[i]) in ids && ids[ClientKey(records[i])] == startId + i
  {
    OwnerIdsSpec(build, records, startId);
    var ids := OwnerPass(build, records, startId).value.ids;
    var k := ClientKey(records[i]);
    var w :| LastWithKey(records, k, w) && ids[k] == startId + w;
  }

  /** A builder of the statement for one row. */
  type RowBuilder = Record -> Result<string>

  /** A builder applied to every row in order; the first failing row stops it. */
  function RowPass(build: RowBuilder, records: seq<Record>): Result<seq<string>>
  {
    if records == [] then Success([])
    else
      var prev :- RowPass(build, records[..|records| - 1]);
      var sql :- build(records[|records| - 1]);
      Success(prev + [sql])
  }

  lemma {:induction false} RowPassPrefixFailure(build: RowBuilder, records: seq<Record>, j: nat)
    requires j <= |records| && RowPass(build, records[..j]).Failure?
    ensures RowPass(build, records) == RowPass(build, records[..j])
    decreases |records| - j
  {
    if j < |records| {
      var init := records[..|records| - 1];
      assert init[..j] == records[..j];
      RowPassPrefixFailure(build, init, j);
    } else {
      assert records[..j] == records;
    }
  }

  /** The pass succeeds exactly when every row does; then it yields one statement
      per row, in order. On failure the error is that of the first failing row. */
  lemma {:induction false} RowPassSpec(build: RowBuilder, records: seq<Record>)
    ensures RowPass(build, records).Success? <==> forall i :: 0 <= i < |records| ==> build(records[i]).Success?
    ensures RowPass(build, records).Success? ==>
      var sqls := RowPass(build, records).value;
      && |sqls| == |records|
      && forall i :: 0 <= i < |records| ==> sqls[i] == build(records[i]).value
    ensures RowPass(build, records).Failure? ==>
      exists i :: 0 <= i < |records|
        && build(records[i]) == Failure(RowPass(build, records).error)
        && forall j :: 0 <= j < i ==> build(records[j]).Success?
  {
    if records != [] {
      var n := |records| - 1;
      var init := records[..n];
      RowPassSpec(build, init);
      assert forall i :: 0 <= i < n ==> records[i] == init[i];
      if RowPass(build, init).Failure? {
        var i :| 0 <= i < n
          && build(init[i]) == Failure(RowPass(build, init).error)
          && forall j :: 0 <= j < i ==> build(init[j]).Success?;
        assert build(records[i]).Failure?;
      }
    }
  }

  /** The vehicle builder of `main`, with the id map of the client pass. */
  function VehicleBuilder(ids: map<Value, int>): RowBuilder
  {
    rec => VehicleStatement(rec, ids, VehicleMapping, VehicleTable)
  }

  /** The loop of `main` over the vehicle table. */
  method VehicleSqls(records: seq<Record>, clientesMap: map<Value, int>) returns (r: Result<seq<string>>)
    ensures r == RowPass(VehicleBuilder(clientesMap), records)
  {
    var sqlVeiculos: seq<string> := [];
    for i := 0 to |records|
      invariant RowPass(VehicleBuilder(clientesMap), records[..i]) == Success(sqlVeiculos)
    {
      assert records[..i + 1][..i] == records[..i];
      var sql := GenerateVehicleSql(records[i], clientesMap, VehicleMapping, VehicleTable);
      if sql.Failure? {
        RowPassPrefixFailure(VehicleBuilder(clientesMap), records, i + 1);
        return Failure(sql.error);
      }
      sqlVeiculos := sqlVeiculos + [sql.value];
    }
    assert records[..|records|] == records;
    r := Success(sqlVeiculos);
  }

  /** Both passes: the owner statements and the vehicle statements, or the first
      error. */
  function BothPasses(clients: seq<Record>, vehicles: seq<Record>): Result<(seq<string>, seq<string>)>
  {
    var owners :- OwnerPass(OwnerStatement, clients, StartId);
    var sqls :- RowPass(VehicleBuilder(owners.ids), vehicles);
    Success((owners.sqls, sqls))
  }

  /** `main` without the reading, the writing and the logging. */
  method Migrate(clients: seq<Record>, vehicles: seq<Record>) returns (r: Result<(seq<string>, seq<string>)>)
    ensures r == BothPasses(clients, vehicles)
  {
    var owners := AssignOwnerIds(clients, StartId);
    if owners.Failure? {
      return Failure(owners.error);
    }
    var sqlVeiculos := VehicleSqls(vehicles, owners.value.ids);
    if sqlVeiculos.Failure? {
      return Failure(sqlVeiculos.error);
    }
    r := Success((owners.value.sqls, sqlVeiculos.value));
  }

  /** After the client pass, a vehicle whose CODCLI is the code of client row i
      (codes distinct) refers to that owner by the id `StartId + i`; a vehicle
      whose CODCLI matches no client row refers to `NULL`. */
  lemma VehicleOwnerLink(build: ClientBuilder, clients: seq<Record>, vehicle: Record)
    requires OwnerPass(build, clients, StartId).Success?
    requires forall a, b :: 0 <= a < b < |clients| ==> ClientKey(clients[a]) != ClientKey(clients[b])
    ensures var ids := OwnerPass(build, clients, StartId).value.ids;
      var codcli := Get(vehicle, "CODCLI", Absent);
      && (forall i :: 0 <= i < |clients| && ClientKey(clients[i]) == codcli ==>
            OwnerRef(vehicle, ids) == IntToString(StartId + i))
      && ((forall i :: 0 <= i < |clients| ==> ClientKey(clients[i]) != codcli) ==>
            OwnerRef(vehicle, ids) == "NULL")
  {
    var ids := OwnerPass(build, clients, StartId).value.ids;
    var codcli := Get(vehicle, "CODCLI", Absent);
    forall i | 0 <= i < |clients| && ClientKey(clients[i]) == codcli
      ensures OwnerRef(vehicle, ids) == IntToString(StartId + i)
    {
      DistinctKeysIds(build, clients, StartId, i);
    }
    if codcli in ids {
      OwnerIdsSpec(build, clients, StartId);
      var w :| LastWithKey(clients, codcli, w) && ids[codcli] == StartId + w;
    }
  }
}
