/** The transaction-record table and its data-access object
    (packages/example/src/dao/txrecord.ts). */
module TxRecordDao {
  import opened Wrappers
  import opened Errors
  import opened Model

  /** The parsed `component_try_statuses` column: a JSON object from component
      id to `{tryStatus}`, whose keys keep their insertion order. */
  type StatusObject = seq<ComponentTryEntity>

  function KeysOf(obj: StatusObject): seq<string> {
    seq(|obj|, i requires 0 <= i < |obj| => obj[i].componentID)
  }

  predicate HasKey(obj: StatusObject, key: string) {
    exists i :: 0 <= i < |obj| && obj[i].componentID == key
  }

  predicate DistinctKeys(obj: StatusObject) {
    forall i, j :: 0 <= i < j < |obj| ==> obj[i].componentID != obj[j].componentID
  }

  /** Where `key` sits in the object. */
  function KeyIndex(obj: StatusObject, key: string): (r: Option<nat>)
    ensures r.None? <==> !HasKey(obj, key)
    ensures r.Some? ==> r.value < |obj| && obj[r.value].componentID == key &&
                        forall j :: 0 <= j < r.value ==> obj[j].componentID != key
  {
    if obj == [] then None
    else if obj[0].componentID == key then Some(0)
    else
      match KeyIndex(obj[1..], key)
      case None => None
      case Some(i) => Some(i + 1)
  }

  /** `obj[key] = {tryStatus}`: an existing key keeps its place, a new key goes last. */
  function Put(obj: StatusObject, key: string, tryStatus: ComponentTryStatus): (r: StatusObject)
    ensures KeysOf(r) == if HasKey(obj, key) then KeysOf(obj) else KeysOf(obj) + [key]
    ensures DistinctKeys(obj) ==> DistinctKeys(r)
    ensures DistinctKeys(obj) ==> forall i :: 0 <= i < |r| && r[i].componentID == key ==> r[i].tryStatus == tryStatus
    ensures forall i :: 0 <= i < |r| && r[i].componentID != key ==> i < |obj| && r[i] == obj[i]
  {
    match KeyIndex(obj, key)
    case None =>
      assert KeysOf(obj + [ComponentTryEntity(key, tryStatus)]) == KeysOf(obj) + [key];
      obj + [ComponentTryEntity(key, tryStatus)]
    case Some(i) =>
      assert DistinctKeys(obj) ==> forall j :: 0 <= j < |obj| && j != i ==> obj[j].componentID != key;
      obj[i := ComponentTryEntity(key, tryStatus)]
  }

  /** One row of `tx_record`. */
  datatype TXRecord = TXRecord(
    id: string,
    componentTryStatuses: StatusObject,
    status: TXStatus,
    deletedAt: int,
    createdAt: int,
    updatedAt: int)

  /** `id` is the primary key; every stored status object has distinct keys. */
  predicate ValidTable(rows: seq<TXRecord>) {
    && (forall i, j :: 0 <= i < j < |rows| ==> rows[i].id != rows[j].id)
    && (forall i :: 0 <= i < |rows| ==> DistinctKeys(rows[i].componentTryStatuses))
  }

  predicate HasRecord(rows: seq<TXRecord>, id: string) {
    exists i :: 0 <= i < |rows| && rows[i].id == id
  }

  /** The `where` clauses the store uses. */
  datatype Query = ById(id: string) | ByStatus(status: TXStatus)

  predicate Matches(q: Query, rec: TXRecord) {
    match q
    case ById(id) => rec.id == id
    case ByStatus(st) => rec.status == st
  }

  /** `findMany({where})`: the matching rows in table order. */
  function FindMany(rows: seq<TXRecord>, q: Query): (r: seq<TXRecord>)
    ensures |r| <= |rows|
    ensures forall x :: x in r <==> x in rows && Matches(q, x)
    ensures ValidTable(rows) ==> ValidTable(r)
    decreases |rows|
  {
    if rows == [] then []
    else
      var prefix := rows[..|rows| - 1];
      var init := FindMany(prefix, q);
      var last := rows[|rows| - 1];
      assert rows == prefix + [last];
      if Matches(q, last) then
        assert ValidTable(rows) ==> ValidTable(init + [last]) by {
          if ValidTable(rows) {
            assert ValidTable(prefix);
            assert forall x :: x in init ==> x.id != last.id;
            ValidTableSnoc(init, last);
          }
        }
        init + [last]
      else
        assert ValidTable(rows) ==> ValidTable(prefix);
        init
  }

  /** A row whose id is new keeps a valid table valid. */
  lemma ValidTableSnoc(rows: seq<TXRecord>, last: TXRecord)
    requires ValidTable(rows) && DistinctKeys(last.componentTryStatuses)
    requires forall x :: x in rows ==> x.id != last.id
    ensures ValidTable(rows + [last])
  {
    var rows' := rows + [last];
    forall i, j | 0 <= i < j < |rows'| ensures rows'[i].id != rows'[j].id {
      if j == |rows| {
        assert rows'[i] in rows;
      }
    }
  }

  /** `findFirst({where: {id}})`: the first row with that id. */
  function FindFirst(rows: seq<TXRecord>, id: string): (r: Option<nat>)
    ensures r.None? <==> !HasRecord(rows, id)
    ensures r.Some? ==> r.value < |rows| && rows[r.value].id == id &&
                        forall j :: 0 <= j < r.value ==> rows[j].id != id
  {
    if rows == [] then None
    else if rows[0].id == id then Some(0)
    else
      match FindFirst(rows[1..], id)
      case None => None
      case Some(i) => Some(i + 1)
  }

  /** The try status recorded for component `componentID` in record `id`, if both exist. */
  function StatusAt(rows: seq<TXRecord>, id: string, componentID: string): Option<ComponentTryStatus> {
    match FindFirst(rows, id)
    case None => None
    case Some(k) =>
      match KeyIndex(rows[k].componentTryStatuses, componentID)
      case None => None
      case Some(e) => Some(rows[k].componentTryStatuses[e].tryStatus)
  }

  /** The table with the same rows, ids, keys, statuses and timestamps:
      only try statuses may differ. */
  predicate SameShape(rows: seq<TXRecord>, rows': seq<TXRecord>) {
    && |rows'| == |rows|
    && forall i :: 0 <= i < |rows| ==>
         && rows'[i].id == rows[i].id
         && KeysOf(rows'[i].componentTryStatuses) == KeysOf(rows[i].componentTryStatuses)
         && rows'[i].status == rows[i].status
         && rows'[i].deletedAt == rows[i].deletedAt
         && rows'[i].createdAt == rows[i].createdAt
         && rows'[i].updatedAt == rows[i].updatedAt
  }

  /** `UpdateComponentStatus` as a function of the table: read the record,
      set `tryStatus` of the existing entry, write the column back. */
  function SetComponentStatus(rows: seq<TXRecord>, id: string, componentID: string,
                              tryStatus: ComponentTryStatus): (r: Result<seq<TXRecord>, Error>)
    ensures r.Success? <==> StatusAt(rows, id, componentID).Some?
    ensures r.Failure? ==>
      r.error == if HasRecord(rows, id) then NoSuchComponentEntry(id, componentID) else RecordNotFound(id)
  {
    match FindFirst(rows, id)
    case None => Failure(RecordNotFound(id))
    case Some(k) =>
      var obj := rows[k].componentTryStatuses;
      match KeyIndex(obj, componentID)
      case None => Failure(NoSuchComponentEntry(id, componentID))
      case Some(e) =>
        Success(rows[k := rows[k].(componentTryStatuses := obj[e := ComponentTryEntity(componentID, tryStatus)])])
  }

  /** `UpdateTXRecord({where: {id}, data: {status, updated_at}})`; an update
      that matches no row fails. */
  function SetRecordStatus(rows: seq<TXRecord>, id: string, status: TXStatus, now: int): (r: Result<seq<TXRecord>, Error>)
    ensures r.Success? <==> HasRecord(rows, id)
    ensures r.Failure? ==> r.error == RecordNotFound(id)
  {
    match FindFirst(rows, id)
    case None => Failure(RecordNotFound(id))
    case Some(k) => Success(rows[k := rows[k].(status := status, updatedAt := now)])
  }

  /** The update writes exactly the named entry's try status: every other
      entry, every other record, and every other column is unchanged. */
  lemma SetComponentStatusWritesOneEntry(rows: seq<TXRecord>, id: string, componentID: string,
                                         tryStatus: ComponentTryStatus, id': string, componentID': string)
    requires ValidTable(rows)
    requires SetComponentStatus(rows, id, componentID, tryStatus).Success?
    ensures var rows' := SetComponentStatus(rows, id, componentID, tryStatus).value;
      && ValidTable(rows')
      && SameShape(rows, rows')
      && StatusAt(rows', id', componentID') ==
           if id' == id && componentID' == componentID then Some(tryStatus) else StatusAt(rows, id', componentID')
  {
    var k := FindFirst(rows, id).value;
    var obj := rows[k].componentTryStatuses;
    var e := KeyIndex(obj, componentID).value;
    var obj' := obj[e := ComponentTryEntity(componentID, tryStatus)];
    var rows' := rows[k := rows[k].(componentTryStatuses := obj')];
    assert SetComponentStatus(rows, id, componentID, tryStatus).value == rows';
    SetComponentStatusKeepsShape(rows, id, componentID, tryStatus);
    assert FindFirst(rows', id') == FindFirst(rows, id') by {
      FindFirstOnSameIds(rows, rows', id');
    }
    if id' != id {
      assert FindFirst(rows, id').Some? ==> FindFirst(rows, id').value != k;
    } else {
      assert KeyIndex(obj', componentID') == KeyIndex(obj, componentID') by {
        KeyIndexOnSameKeys(obj, obj', componentID');
      }
      assert componentID' != componentID && KeyIndex(obj, componentID').Some? ==>
        KeyIndex(obj, componentID').value != e;
    }
  }

  /** The update keeps the table valid and changes no id, key or column but try statuses. */
  lemma SetComponentStatusKeepsShape(rows: seq<TXRecord>, id: string, componentID: string,
                                     tryStatus: ComponentTryStatus)
    requires ValidTable(rows)
    requires SetComponentStatus(rows, id, componentID, tryStatus).Success?
    ensures var rows' := SetComponentStatus(rows, id, componentID, tryStatus).value;
      ValidTable(rows') && SameShape(rows, rows')
  {
    var k := FindFirst(rows, id).value;
    var obj := rows[k].componentTryStatuses;
    var e := KeyIndex(obj, componentID).value;
    var obj' := obj[e := ComponentTryEntity(componentID, tryStatus)];
    var rows' := rows[k := rows[k].(componentTryStatuses := obj')];
    assert SetComponentStatus(rows, id, componentID, tryStatus).value == rows';
    assert KeysOf(obj') == KeysOf(obj);
    assert ValidTable(rows') by {
      assert forall i :: 0 <= i < |obj| ==> obj'[i].componentID == obj[i].componentID;
    }
  }

  /** Submitting sets the record's status and update time and nothing else. */
  lemma SetRecordStatusWritesOneRecord(rows: seq<TXRecord>, id: string, status: TXStatus, now: int, i: nat)
    requires ValidTable(rows)
    requires SetRecordStatus(rows, id, status, now).Success? && i < |rows|
    ensures var rows' := SetRecordStatus(rows, id, status, now).value;
      && ValidTable(rows')
      && |rows'| == |rows|
      && rows'[i] == if rows[i].id == id then rows[i].(status := status, updatedAt := now) else rows[i]
  {
  }

  /** The status column of the record with that id, if there is one. */
  function RecordStatus(rows: seq<TXRecord>, id: string): Option<TXStatus> {
    match FindFirst(rows, id)
    case None => None
    case Some(k) => Some(rows[k].status)
  }

  /** `rows'` is `rows` with the record `id` submitted as `status` at `now`:
      that record's status and update time changed, every other row the same. */
  predicate SubmittedAs(rows: seq<TXRecord>, rows': seq<TXRecord>, id: string, status: TXStatus, now: int) {
    && |rows'| == |rows|
    && forall i :: 0 <= i < |rows| ==>
         rows'[i] == if rows[i].id == id then rows[i].(status := status, updatedAt := now) else rows[i]
  }

  /** A successful submit stores `status` in the record and changes nothing else. */
  lemma SetRecordStatusStores(rows: seq<TXRecord>, id: string, status: TXStatus, now: int)
    requires ValidTable(rows)
    requires SetRecordStatus(rows, id, status, now).Success?
    ensures var rows' := SetRecordStatus(rows, id, status, now).value;
      && ValidTable(rows')
      && RecordStatus(rows', id) == Some(status)
      && SubmittedAs(rows, rows', id, status, now)
  {
    var rows' := SetRecordStatus(rows, id, status, now).value;
    forall i | 0 <= i < |rows|
      ensures rows'[i] == if rows[i].id == id then rows[i].(status := status, updatedAt := now) else rows[i]
    {
      SetRecordStatusWritesOneRecord(rows, id, status, now, i);
    }
    SetRecordStatusWritesOneRecord(rows, id, status, now, 0);
    FindFirstOnSameIds(rows, rows', id);
  }

  lemma {:induction false} FindFirstOnSameIds(rows: seq<TXRecord>, rows': seq<TXRecord>, id: string)
    requires |rows| == |rows'| && forall i :: 0 <= i < |rows| ==> rows[i].id == rows'[i].id
    ensures FindFirst(rows, id) == FindFirst(rows', id)
  {
    if rows != [] {
      FindFirstOnSameIds(rows[1..], rows'[1..], id);
    }
  }

  lemma {:induction false} KeyIndexOnSameKeys(obj: StatusObject, obj': StatusObject, key: string)
    requires KeysOf(obj) == KeysOf(obj')
    ensures KeyIndex(obj, key) == KeyIndex(obj', key)
  {
    assert |obj| == |KeysOf(obj)|;
    if obj != [] {
      assert obj[0].componentID == KeysOf(obj)[0];
      assert obj'[0].componentID == KeysOf(obj')[0];
      assert KeysOf(obj[1..]) == KeysOf(obj)[1..];
      assert KeysOf(obj'[1..]) == KeysOf(obj')[1..];
      KeyIndexOnSameKeys(obj[1..], obj'[1..], key);
    }
  }

  /** The `tx_record` table, reached through the DAO's static methods. */
  class TXRecordTable {
    var rows: seq<TXRecord>

    ghost predicate Valid()
      reads this
    {
      ValidTable(rows)
    }

    constructor ()
      ensures Valid() && rows == []
    {
      rows := [];
    }

    /** `CreateTXRecord`: the primary key refuses an id already in use. */
    method CreateTXRecord(rec: TXRecord) returns (r: Result<TXRecord, Error>)
      requires Valid() && DistinctKeys(rec.componentTryStatuses)
      modifies this
      ensures Valid()
      ensures HasRecord(old(rows), rec.id) ==> r == Failure(DuplicateRecordID(rec.id)) && rows == old(rows)
      ensures !HasRecord(old(rows), rec.id) ==> r == Success(rec) && rows == old(rows) + [rec]
    {
      if FindFirst(rows, rec.id).Some? {
        return Failure(DuplicateRecordID(rec.id));
      }
      rows := rows + [rec];
      r := Success(rec);
    }

    /** `UpdateTXRecord` with the status and update-time columns. */
    method UpdateTXRecordStatus(id: string, status: TXStatus, now: int) returns (r: Result<(), Error>)
      requires Valid()
      modifies this
      ensures Valid()
      ensures var u := SetRecordStatus(old(rows), id, status, now);
        && (u.Success? ==> r == Success(()) && rows == u.value)
        && (u.Failure? ==> rows == old(rows) && r == Failure(u.error))
    {
      var k := FindFirst(rows, id);
      if k.None? {
        return Failure(RecordNotFound(id));
      }
      rows := rows[k.value := rows[k.value].(status := status, updatedAt := now)];
      r := Success(());
    }

    /** `UpdateComponentStatus`: find the record, parse its status object, set
        `tryStatus` of the named entry in place (a missing entry is a
        dereference of undefined and throws), write the column back. */
    method UpdateComponentStatus(id: string, componentID: string, tryStatus: ComponentTryStatus)
      returns (r: Result<(), Error>)
      requires Valid()
      modifies this
      ensures Valid()
      ensures var u := SetComponentStatus(old(rows), id, componentID, tryStatus);
        && (u.Success? ==> r == Success(()) && rows == u.value)
        && (u.Failure? ==> rows == old(rows) && r == Failure(u.error))
    {
      var found := FindFirst(rows, id);
      if found.None? {
        return Failure(RecordNotFound(id));
      }
      var k := found.value;
      var statuses := rows[k].componentTryStatuses;
      var e := KeyIndex(statuses, componentID);
      if e.None? {
        return Failure(NoSuchComponentEntry(id, componentID));
      }
      statuses := statuses[e.value := ComponentTryEntity(componentID, tryStatus)];
      ghost var old_rows := rows;
      rows := rows[k := rows[k].(componentTryStatuses := statuses)];
      SetComponentStatusWritesOneEntry(old_rows, id, componentID, tryStatus, id, componentID);
      r := Success(());
    }
  }
}
