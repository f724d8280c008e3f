/** The reference transaction store (packages/example/src/txstore.ts) over the
    record table. Lock and Unlock are not part of this model of the store; the
    coordinator treats them as calls that succeed or fail. */
module TxStore {
  import opened Wrappers
  import opened Errors
  import opened Model
  import opened Component
  import opened TxRecordDao

  function IDs(components: seq<ComponentRef>): (ids: seq<string>)
    ensures |ids| == |components| && forall i :: 0 <= i < |ids| ==> ids[i] == components[i].id
  {
    seq(|components|, i requires 0 <= i < |components| => components[i].id)
  }

  predicate Distinct(ids: seq<string>) {
    forall i, j :: 0 <= i < j < |ids| ==> ids[i] != ids[j]
  }

  /** The status object `CreateTX` assembles: one assignment per component, in order. */
  function InitialStatuses(ids: seq<string>): StatusObject
    decreases |ids|
  {
    if ids == [] then []
    else Put(InitialStatuses(ids[..|ids| - 1]), ids[|ids| - 1], TryHanging)
  }

  /** One more id puts one more Hanging entry. */
  lemma InitialStatusesStep(ids: seq<string>, i: nat)
    requires i < |ids|
    ensures InitialStatuses(ids[..i + 1]) == Put(InitialStatuses(ids[..i]), ids[i], TryHanging)
  {
    assert ids[..i + 1][..i] == ids[..i];
  }

  /** One Hanging entry per distinct id: repeated ids collapse into one key,
      which keeps the place of its first occurrence. */
  lemma InitialStatusesShape(ids: seq<string>)
    ensures var obj := InitialStatuses(ids);
      && DistinctKeys(obj)
      && |obj| <= |ids|
      && (forall key :: HasKey(obj, key) <==> key in ids)
      && (forall i :: 0 <= i < |obj| ==> obj[i].tryStatus == TryHanging)
      && (Distinct(ids) ==> KeysOf(obj) == ids)
  {
    var obj := InitialStatuses(ids);
    InitialStatusesHaveDistinctKeys(ids);
    InitialStatusesKeys(ids);
    InitialStatusesAllHanging(ids);
    if Distinct(ids) {
      InitialStatusesInOrder(ids);
    }
    forall key
      ensures HasKey(obj, key) <==> key in ids
    {
      HasKeyIsKeysOf(obj, key);
    }
  }

  lemma HasKeyIsKeysOf(obj: StatusObject, key: string)
    ensures HasKey(obj, key) <==> key in KeysOf(obj)
  {
    if HasKey(obj, key) {
      var i :| 0 <= i < |obj| && obj[i].componentID == key;
      assert KeysOf(obj)[i] == key;
    }
  }

  lemma {:induction false} InitialStatusesHaveDistinctKeys(ids: seq<string>)
    ensures DistinctKeys(InitialStatuses(ids))
    decreases |ids|
  {
    if ids != [] {
      InitialStatusesHaveDistinctKeys(ids[..|ids| - 1]);
    }
  }

  /** The keys are the ids, each once, so there are no more keys than ids. */
  lemma {:induction false} InitialStatusesKeys(ids: seq<string>)
    ensures forall key :: key in KeysOf(InitialStatuses(ids)) <==> key in ids
    ensures |InitialStatuses(ids)| <= |ids|
    decreases |ids|
  {
    if ids != [] {
      var init, last := ids[..|ids| - 1], ids[|ids| - 1];
      assert ids == init + [last];
      InitialStatusesKeys(init);
      var prev := InitialStatuses(init);
      HasKeyIsKeysOf(prev, last);
      assert |KeysOf(InitialStatuses(ids))| == |InitialStatuses(ids)| && |KeysOf(prev)| == |prev|;
    }
  }

  lemma {:induction false} InitialStatusesAllHanging(ids: seq<string>)
    ensures forall i :: 0 <= i < |InitialStatuses(ids)| ==> InitialStatuses(ids)[i].tryStatus == TryHanging
    decreases |ids|
  {
    if ids != [] {
      var init := ids[..|ids| - 1];
      InitialStatusesAllHanging(init);
      InitialStatusesHaveDistinctKeys(init);
    }
  }

  /** With distinct ids, the keys are the ids in order. */
  lemma {:induction false} InitialStatusesInOrder(ids: seq<string>)
    requires Distinct(ids)
    ensures KeysOf(InitialStatuses(ids)) == ids
    decreases |ids|
  {
    if ids != [] {
      var init, last := ids[..|ids| - 1], ids[|ids| - 1];
      assert ids == init + [last];
      assert Distinct(init) && last !in init;
      InitialStatusesInOrder(init);
      HasKeyIsKeysOf(InitialStatuses(init), last);
    }
  }

  /** The row `CreateTX` inserts: Hanging, not deleted, created and updated `now`. */
  function NewRecord(id: string, ids: seq<string>, now: int): TXRecord {
    TXRecord(id, InitialStatuses(ids), TXHanging, -1, now, now)
  }

  /** `new Transaction(record.id, components)` at load time `now`: the stored
      `created_at` is not passed, so `createdAt` defaults to `now`. */
  function Load(rec: TXRecord, now: int): Transaction {
    NewTransaction(rec.id, Some(rec.componentTryStatuses), None, now)
  }

  /** What `GetHangingTXs` returns: one transaction per Hanging record, in table order. */
  function HangingTransactions(rows: seq<TXRecord>, now: int): seq<Transaction> {
    var recs := FindMany(rows, ByStatus(TXHanging));
    seq(|recs|, i requires 0 <= i < |recs| => Load(recs[i], now))
  }

  /** What `GetTX` returns. */
  function LoadTX(rows: seq<TXRecord>, id: string, now: int): Result<Transaction, Error> {
    var recs := FindMany(rows, ById(id));
    if |recs| != 1 then Failure(GetTXFailed(id)) else Success(Load(recs[0], now))
  }

  class MockTXStore {
    const dao: TXRecordTable

    ghost predicate Valid()
      reads this, dao
    {
      dao.Valid()
    }

    constructor (dao: TXRecordTable)
      requires dao.Valid()
      ensures Valid() && this.dao == dao
    {
      this.dao := dao;
    }

    /** `CreateTX`: the record id comes from the database, here `newId`. */
    method CreateTX(components: seq<ComponentRef>, newId: string, now: int) returns (r: Result<string, Error>)
      requires Valid()
      modifies dao
      ensures Valid()
      ensures HasRecord(old(dao.rows), newId) ==> r == Failure(DuplicateRecordID(newId)) && dao.rows == old(dao.rows)
      ensures !HasRecord(old(dao.rows), newId) ==>
        r == Success(newId) && dao.rows == old(dao.rows) + [NewRecord(newId, IDs(components), now)]
    {
      var componentTryStatuses := BuildStatuses(components);
      var rec := dao.CreateTXRecord(TXRecord(newId, componentTryStatuses, TXHanging, -1, now, now));
      if rec.Failure? {
        return Failure(rec.error);
      }
      r := Success(rec.value.id);
    }

    /** The loop that assigns `TryHanging` under each component's id. */
    static method BuildStatuses(components: seq<ComponentRef>) returns (obj: StatusObject)
      ensures obj == InitialStatuses(IDs(components))
      ensures DistinctKeys(obj)
    {
      obj := [];
      ghost var ids := IDs(components);
      for i := 0 to |components|
        invariant obj == InitialStatuses(ids[..i])
      {
        InitialStatusesStep(ids, i);
        obj := Put(obj, components[i].id, TryHanging);
      }
      assert ids[..|components|] == ids;
      InitialStatusesHaveDistinctKeys(ids);
    }

    method TXUpdate(txID: string, componentID: string, accept: bool) returns (r: Result<(), Error>)
      requires Valid()
      modifies dao
      ensures Valid()
      ensures var u := SetComponentStatus(old(dao.rows), txID, componentID, if accept then TrySucceesful else TryFailure);
        && (u.Success? ==> r == Success(()) && dao.rows == u.value)
        && (u.Failure? ==> dao.rows == old(dao.rows) && r == Failure(u.error))
    {
      r := dao.UpdateComponentStatus(txID, componentID, if accept then TrySucceesful else TryFailure);
    }

    /** The `for (const componentID in componentTryStatuses)` copy into entities. */
    static method ParseComponents(obj: StatusObject) returns (components: seq<ComponentTryEntity>)
      ensures components == obj
    {
      components := [];
      for i := 0 to |obj|
        invariant components == obj[..i]
      {
        components := components + [ComponentTryEntity(obj[i].componentID, obj[i].tryStatus)];
      }
    }

    method GetHangingTXs(now: int) returns (txs: seq<Transaction>)
      requires Valid()
      ensures txs == HangingTransactions(dao.rows, now)
    {
      var records := FindMany(dao.rows, ByStatus(TXHanging));
      txs := [];
      for i := 0 to |records|
        invariant |txs| == i && forall j :: 0 <= j < i ==> txs[j] == Load(records[j], now)
      {
        var components := ParseComponents(records[i].componentTryStatuses);
        txs := txs + [NewTransaction(records[i].id, Some(components), None, now)];
      }
    }

    method TXSubmit(txID: string, success: bool, now: int) returns (r: Result<(), Error>)
      requires Valid()
      modifies dao
      ensures Valid()
      ensures var u := SetRecordStatus(old(dao.rows), txID, if success then TXSuccessful else TXFailure, now);
        && (u.Success? ==> r == Success(()) && dao.rows == u.value)
        && (u.Failure? ==> dao.rows == old(dao.rows) && r == Failure(u.error))
    {
      r := dao.UpdateTXRecordStatus(txID, if success then TXSuccessful else TXFailure, now);
    }

    method GetTX(txID: string, now: int) returns (r: Result<Transaction, Error>)
      requires Valid()
      ensures r == LoadTX(dao.rows, txID, now)
      ensures r.Success? <==> |FindMany(dao.rows, ById(txID))| == 1
      ensures r.Success? ==> r.value.txID == txID && r.value.createdAt == now
    {
      var records := FindMany(dao.rows, ById(txID));
      if |records| != 1 {
        return Failure(GetTXFailed(txID));
      }
      assert records[0] in records;
      var components := ParseComponents(records[0].componentTryStatuses);
      r := Success(NewTransaction(records[0].id, Some(components), None, now));
    }
  }

  /** `GetHangingTXs` returns exactly the records whose stored status is
      Hanging, each once. */
  lemma HangingTransactionsAreTheHangingRecords(rows: seq<TXRecord>, now: int)
    requires ValidTable(rows)
    ensures var txs := HangingTransactions(rows, now);
      && (forall rec :: rec in rows && rec.status == TXHanging ==> Load(rec, now) in txs)
      && (forall t :: t in txs ==> exists rec :: rec in rows && rec.status == TXHanging && t == Load(rec, now))
      && (forall i, j :: 0 <= i < j < |txs| ==> txs[i].txID != txs[j].txID)
  {
    var recs := FindMany(rows, ByStatus(TXHanging));
    var txs := HangingTransactions(rows, now);
    forall rec | rec in rows && rec.status == TXHanging
      ensures Load(rec, now) in txs
    {
      var i :| 0 <= i < |recs| && recs[i] == rec;
      assert txs[i] == Load(rec, now);
    }
    forall t | t in txs
      ensures exists rec :: rec in rows && rec.status == TXHanging && t == Load(rec, now)
    {
      var i :| 0 <= i < |txs| && txs[i] == t;
      assert recs[i] in recs;
    }
  }

  /** Once submitted, a record is never again returned by `GetHangingTXs`. */
  lemma SubmittedIsNoLongerHanging(rows: seq<TXRecord>, txID: string, success: bool, now: int, later: int)
    requires ValidTable(rows)
    requires SetRecordStatus(rows, txID, if success then TXSuccessful else TXFailure, now).Success?
    ensures var rows' := SetRecordStatus(rows, txID, if success then TXSuccessful else TXFailure, now).value;
      forall t :: t in HangingTransactions(rows', later) ==> t.txID != txID
  {
    var rows' := SetRecordStatus(rows, txID, if success then TXSuccessful else TXFailure, now).value;
    var recs := FindMany(rows', ByStatus(TXHanging));
    forall t | t in HangingTransactions(rows', later)
      ensures t.txID != txID
    {
      var i :| 0 <= i < |recs| && Load(recs[i], later) == t;
      assert recs[i] in recs;
      var j :| 0 <= j < |rows'| && rows'[j] == recs[i];
      SetRecordStatusWritesOneRecord(rows, txID, if success then TXSuccessful else TXFailure, now, j);
    }
  }

  /** A loaded transaction carries its load time as `createdAt`: whenever the
      status is derived with a cutoff no later than the load time, the
      timeout rule cannot fire and only the component entries decide. */
  lemma LoadedTransactionsNeverTimeOut(rows: seq<TXRecord>, loadTime: int, cutoff: int, t: Transaction)
    requires t in HangingTransactions(rows, loadTime) || LoadTX(rows, t.txID, loadTime) == Success(t)
    requires cutoff <= loadTime
    ensures DeriveStatus(t, cutoff) == ComponentsStatus(t.components)
  {
    if t in HangingTransactions(rows, loadTime) {
      var recs := FindMany(rows, ByStatus(TXHanging));
      var i :| 0 <= i < |recs| && HangingTransactions(rows, loadTime)[i] == t;
    }
  }

  lemma FirstTwoDiffer(recs: seq<TXRecord>)
    requires forall i, j :: 0 <= i < j < |recs| ==> recs[i].id != recs[j].id
    ensures |recs| >= 2 ==> recs[0].id != recs[1].id
  {
  }

  /** Rows with distinct ids that all carry the id of `x`: `x` is the only one. */
  lemma OnlyMatch(recs: seq<TXRecord>, x: TXRecord)
    requires forall i, j :: 0 <= i < j < |recs| ==> recs[i].id != recs[j].id
    requires forall i :: 0 <= i < |recs| ==> recs[i].id == x.id
    requires x in recs
    ensures recs == [x]
  {
    FirstTwoDiffer(recs);
  }

  /** With a primary key, `GetTX` fails exactly when no record has the id. */
  lemma GetTXFindsTheRecord(rows: seq<TXRecord>, id: string, now: int)
    requires ValidTable(rows)
    ensures LoadTX(rows, id, now).Success? <==> HasRecord(rows, id)
    ensures LoadTX(rows, id, now).Success? ==>
      && LoadTX(rows, id, now).value.txID == id && LoadTX(rows, id, now).value.createdAt == now
      && LoadTX(rows, id, now).value.components == rows[FindFirst(rows, id).value].componentTryStatuses
  {
    var recs := FindMany(rows, ById(id));
    forall i | 0 <= i < |recs|
      ensures recs[i].id == id
    {
      assert recs[i] in recs;
    }
    assert |recs| > 0 ==> recs[0] in rows;
    if HasRecord(rows, id) {
      var k := FindFirst(rows, id).value;
      assert rows[k] in recs;
      OnlyMatch(recs, rows[k]);
    }
  }
}
