/** The reference TCC participant (packages/example/src/tcccomponent.ts) over
    a Redis-like key-value store. */
module TccComponent {
  import opened Wrappers
  import opened Errors
  import opened RedisKeys

  type KV = map<string, string>

  /** What the component records about a transaction under the status key. */
  const TRIED := "tried"
  const CONFIRMED := "confirmed"
  const CANCELED := "canceled"

  /** What the component records about the business data under the data key. */
  const FROZEN := "frozen"
  const SUCCESSFUL := "successful"

  /** `GET key`: the stored value, or nil. */
  function GetValue(kv: KV, key: string): Option<string> {
    if key in kv then Some(kv[key]) else None
  }

  /** A possibly-nil string spliced into a template literal: nil reads "null". */
  function Template(v: Option<string>): string {
    match v
    case Some(s) => s
    case None => "null"
  }

  /** The request a participant receives; of the payload only `biz_id` is read. */
  datatype TCCReq = TCCReq(componentID: string, txID: string, bizID: string)

  datatype TCCResp = TCCResp(componentID: string, ack: bool, txID: string)

  /** The store after a call, and what the call answered or threw. */
  datatype Step = Step(kv: KV, resp: Result<TCCResp, Error>)

  function Acked(s: Step): bool {
    s.resp.Success? && s.resp.value.ack
  }

  /** `Try` as a function of the store. */
  function TryStep(kv: KV, id: string, req: TCCReq): (s: Step)
    ensures s.resp.Success? && s.resp.value.componentID == id && s.resp.value.txID == req.txID
    ensures GetValue(kv, BuildTXKey(id, req.txID)) in {Some(TRIED), Some(CONFIRMED)} ==> s.kv == kv && Acked(s)
    ensures GetValue(kv, BuildTXKey(id, req.txID)) == Some(CANCELED) ==> s.kv == kv && !Acked(s)
  {
    var status := GetValue(kv, BuildTXKey(id, req.txID));
    if status == Some(TRIED) || status == Some(CONFIRMED) then
      Step(kv, Success(TCCResp(id, true, req.txID)))
    else if status == Some(CANCELED) then
      Step(kv, Success(TCCResp(id, false, req.txID)))
    else
      var kv1 := kv[BuildTXDetailKey(id, req.txID) := req.bizID];
      var dataKey := BuildDataKey(id, req.txID, req.bizID);
      var kv2 := if dataKey in kv1 then kv1 else kv1[dataKey := FROZEN];
      var kv3 := kv2[BuildTXKey(id, req.txID) := TRIED];
      Step(kv3, Success(TCCResp(id, true, req.txID)))
  }

  /** `Confirm` as a function of the store. */
  function ConfirmStep(kv: KV, id: string, txID: string): (s: Step)
    ensures s.resp.Success? && s.resp.value.componentID == id && s.resp.value.txID == txID
    ensures !Acked(s) ==> s.kv == kv
    ensures GetValue(kv, BuildTXKey(id, txID)) == Some(CONFIRMED) ==> Acked(s) && s.kv == kv
  {
    var status := GetValue(kv, BuildTXKey(id, txID));
    if status == Some(CONFIRMED) then
      Step(kv, Success(TCCResp(id, true, txID)))
    else if status != Some(TRIED) then
      Step(kv, Success(TCCResp(id, false, txID)))
    else
      var dataKey := BuildDataKey(id, txID, Template(GetValue(kv, BuildTXDetailKey(id, txID))));
      if GetValue(kv, dataKey) != Some(FROZEN) then
        Step(kv, Success(TCCResp(id, false, txID)))
      else
        var kv1 := kv[dataKey := SUCCESSFUL];
        var kv2 := kv1[BuildTXKey(id, txID) := CONFIRMED];
        Step(kv2, Success(TCCResp(id, true, txID)))
  }

  /** `Cancel` as a function of the store. */
  function CancelStep(kv: KV, id: string, txID: string): (s: Step)
    ensures s.resp.Failure? <==> GetValue(kv, BuildTXKey(id, txID)) == Some(CONFIRMED)
    ensures s.resp.Failure? ==> s.kv == kv && s.resp.error == IllegalStateTransition(txID)
    ensures s.resp.Success? ==> s.resp.value == TCCResp(id, true, txID)
  {
    var status := GetValue(kv, BuildTXKey(id, txID));
    if status == Some(CONFIRMED) then
      Step(kv, Failure(IllegalStateTransition(txID)))
    else
      var bizID := GetValue(kv, BuildTXDetailKey(id, txID));
      var kv1 := if bizID != Some("") then kv - {BuildDataKey(id, txID, Template(bizID))} else kv;
      var kv2 := kv1[BuildTXKey(id, txID) := CANCELED];
      Step(kv2, Success(TCCResp(id, true, txID)))
  }

  /** The Redis client the participant holds (ioredis), as a map. */
  class RedisClient {
    var kv: KV

    constructor ()
      ensures kv == map[]
    {
      kv := map[];
    }

    method Get(key: string) returns (v: Option<string>)
      ensures v == GetValue(kv, key)
    {
      v := if key in kv then Some(kv[key]) else None;
    }

    method Set(key: string, value: string)
      modifies this
      ensures kv == old(kv)[key := value]
    {
      kv := kv[key := value];
    }

    /** `SETNX`: writes only when the key is absent, and says whether it wrote. */
    method SetNX(key: string, value: string) returns (written: bool)
      modifies this
      ensures written == (key !in old(kv))
      ensures kv == if written then old(kv)[key := value] else old(kv)
    {
      written := key !in kv;
      if written {
        kv := kv[key := value];
      }
    }

    method Del(key: string)
      modifies this
      ensures kv == old(kv) - {key}
    {
      kv := kv - {key};
    }
  }

  class MockComponent {
    const id: string
    const client: RedisClient

    constructor (id: string, client: RedisClient)
      ensures this.id == id && this.client == client
    {
      this.id := id;
      this.client := client;
    }

    method Try(req: TCCReq) returns (resp: TCCResp)
      modifies client
      ensures TryStep(old(client.kv), id, req) == Step(client.kv, Success(resp))
    {
      var txStatus := client.Get(BuildTXKey(id, req.txID));
      resp := TCCResp(id, false, req.txID);
      if txStatus == Some(TRIED) || txStatus == Some(CONFIRMED) {
        resp := resp.(ack := true);
        return;
      } else if txStatus == Some(CANCELED) {
        return;
      }
      var bizID := req.bizID;
      client.Set(BuildTXDetailKey(id, req.txID), bizID);
      var reply := client.SetNX(BuildDataKey(id, req.txID, bizID), FROZEN);
      client.Set(BuildTXKey(id, req.txID), TRIED);
      resp := resp.(ack := true);
    }

    method Confirm(txID: string) returns (resp: TCCResp)
      modifies client
      ensures ConfirmStep(old(client.kv), id, txID) == Step(client.kv, Success(resp))
    {
      var txStatus := client.Get(BuildTXKey(id, txID));
      resp := TCCResp(id, false, txID);
      if txStatus == Some(CONFIRMED) {
        resp := resp.(ack := true);
        return;
      } else if txStatus != Some(TRIED) {
        return;
      }
      var bizID := client.Get(BuildTXDetailKey(id, txID));
      var dataStatus := client.Get(BuildDataKey(id, txID, Template(bizID)));
      if dataStatus != Some(FROZEN) {
        return;
      }
      client.Set(BuildDataKey(id, txID, Template(bizID)), SUCCESSFUL);
      client.Set(BuildTXKey(id, txID), CONFIRMED);
      resp := resp.(ack := true);
    }

    method Cancel(txID: string) returns (r: Result<TCCResp, Error>)
      modifies client
      ensures CancelStep(old(client.kv), id, txID) == Step(client.kv, r)
    {
      var txStatus := client.Get(BuildTXKey(id, txID));
      if txStatus == Some(CONFIRMED) {
        return Failure(IllegalStateTransition(txID));
      }
      var bizID := client.Get(BuildTXDetailKey(id, txID));
      if bizID != Some("") {
        client.Del(BuildDataKey(id, txID, Template(bizID)));
      }
      client.Set(BuildTXKey(id, txID), CANCELED);
      r := Success(TCCResp(id, true, txID));
    }
  }

  // ---- properties of one call ----

  /** A first Try records the business id, freezes the data unless it already
      has a state, marks the (shared) status key tried, and touches nothing else. */
  lemma FreshTryEffect(kv: KV, id: string, req: TCCReq, key: string)
    requires GetValue(kv, BuildTXKey(id, req.txID)) !in {Some(TRIED), Some(CONFIRMED), Some(CANCELED)}
    ensures var s := TryStep(kv, id, req);
      && Acked(s)
      && GetValue(s.kv, BuildTXDetailKey(id, req.txID)) == Some(req.bizID)
      && GetValue(s.kv, BuildTXKey(id, req.txID)) == Some(TRIED)
      && GetValue(s.kv, BuildDataKey(id, req.txID, req.bizID)) ==
           (if BuildDataKey(id, req.txID, req.bizID) in kv then GetValue(kv, BuildDataKey(id, req.txID, req.bizID))
            else Some(FROZEN))
      && (key !in {BuildTXDetailKey(id, req.txID), BuildTXKey(id, req.txID), BuildDataKey(id, req.txID, req.bizID)} ==>
            GetValue(s.kv, key) == GetValue(kv, key))
  {
    DetailKeyIsDistinct(id, req.txID, id, req.txID, req.bizID);
    DataKeyIsNotTXKey(id, req.txID, req.bizID, id, req.txID);
  }

  /** Confirm after a Try that froze the data: the data becomes successful,
      the status confirmed, and nothing else changes. */
  lemma ConfirmAfterFrozen(kv: KV, id: string, txID: string, key: string)
    requires GetValue(kv, BuildTXKey(id, txID)) == Some(TRIED)
    requires GetValue(kv, BuildDataKey(id, txID, Template(GetValue(kv, BuildTXDetailKey(id, txID))))) == Some(FROZEN)
    ensures var s := ConfirmStep(kv, id, txID);
      && Acked(s)
      && GetValue(s.kv, BuildTXKey(id, txID)) == Some(CONFIRMED)
      && GetValue(s.kv, BuildDataKey(id, txID, Template(GetValue(kv, BuildTXDetailKey(id, txID))))) == Some(SUCCESSFUL)
      && (key != BuildTXKey(id, txID) && key != BuildDataKey(id, txID, Template(GetValue(kv, BuildTXDetailKey(id, txID)))) ==>
            GetValue(s.kv, key) == GetValue(kv, key))
  {
    DataKeyIsNotTXKey(id, txID, Template(GetValue(kv, BuildTXDetailKey(id, txID))), id, txID);
  }

  /** Confirm rejects, writing nothing, unless the status is confirmed, or
      tried with the data frozen. */
  lemma ConfirmRejectsOtherwise(kv: KV, id: string, txID: string)
    ensures Acked(ConfirmStep(kv, id, txID)) <==>
      || GetValue(kv, BuildTXKey(id, txID)) == Some(CONFIRMED)
      || (&& GetValue(kv, BuildTXKey(id, txID)) == Some(TRIED)
          && GetValue(kv, BuildDataKey(id, txID, Template(GetValue(kv, BuildTXDetailKey(id, txID))))) == Some(FROZEN))
  {
  }

  /** A Cancel that is not refused compensates: it drops the data key its
      detail names (unless the detail is the empty string), marks the
      (shared) status key canceled, and touches nothing else. */
  lemma CancelEffect(kv: KV, id: string, txID: string, key: string)
    requires GetValue(kv, BuildTXKey(id, txID)) != Some(CONFIRMED)
    ensures var s := CancelStep(kv, id, txID);
      var detail := GetValue(kv, BuildTXDetailKey(id, txID));
      var dataKey := BuildDataKey(id, txID, Template(detail));
      && Acked(s)
      && GetValue(s.kv, BuildTXKey(id, txID)) == Some(CANCELED)
      && (detail != Some("") ==> dataKey !in s.kv)
      && (key != BuildTXKey(id, txID) && (detail != Some("") ==> key != dataKey) ==>
            GetValue(s.kv, key) == GetValue(kv, key))
  {
    DataKeyIsNotTXKey(id, txID, Template(GetValue(kv, BuildTXDetailKey(id, txID))), id, txID);
  }

  // ---- properties of call sequences ----

  /** Confirm is idempotent: once acked, a repeat acks and writes nothing. */
  lemma ConfirmIsIdempotent(kv: KV, id: string, txID: string)
    requires Acked(ConfirmStep(kv, id, txID))
    ensures var s := ConfirmStep(kv, id, txID);
      ConfirmStep(s.kv, id, txID) == Step(s.kv, Success(TCCResp(id, true, txID)))
  {
    var dataKey := BuildDataKey(id, txID, Template(GetValue(kv, BuildTXDetailKey(id, txID))));
    DataKeyIsNotTXKey(id, txID, Template(GetValue(kv, BuildTXDetailKey(id, txID))), id, txID);
  }

  /** Cancel is idempotent: a repeat acks again and leaves the store as the
      first Cancel left it. */
  lemma CancelIsIdempotent(kv: KV, id: string, txID: string)
    requires CancelStep(kv, id, txID).resp.Success?
    ensures var s := CancelStep(kv, id, txID);
      CancelStep(s.kv, id, txID) == s
  {
    var s := CancelStep(kv, id, txID);
    var detail := BuildTXDetailKey(id, txID);
    var bizID := GetValue(kv, detail);
    DetailKeyIsDistinct(id, txID, id, txID, Template(bizID));
    assert GetValue(s.kv, detail) == bizID;
    assert GetValue(s.kv, BuildTXKey(id, txID)) == Some(CANCELED);
    var s2 := CancelStep(s.kv, id, txID);
    assert s2.kv == s.kv;
  }

  /** Confirm then Cancel is refused and writes nothing. Because the status key
      is shared, this holds for every component and every transaction. */
  lemma CancelAfterConfirmIsRefused(kv: KV, id: string, txID: string, id': string, txID': string)
    requires Acked(ConfirmStep(kv, id, txID))
    ensures var s := ConfirmStep(kv, id, txID);
      CancelStep(s.kv, id', txID') == Step(s.kv, Failure(IllegalStateTransition(txID')))
  {
    var dataKey := BuildDataKey(id, txID, Template(GetValue(kv, BuildTXDetailKey(id, txID))));
    DataKeyIsNotTXKey(id, txID, Template(GetValue(kv, BuildTXDetailKey(id, txID))), id, txID);
  }

  /** A Try that arrives after a Cancel is rejected and writes nothing; again
      for every component and transaction, the status key being shared. */
  lemma TryAfterCancelIsRejected(kv: KV, id: string, txID: string, id': string, req: TCCReq)
    requires CancelStep(kv, id, txID).resp.Success?
    ensures var s := CancelStep(kv, id, txID);
      TryStep(s.kv, id', req) == Step(s.kv, Success(TCCResp(id', false, req.txID)))
  {
  }

  /** The shared status key: once any component has run a first Try for any
      transaction, every later Try of any component for any transaction acks
      without writing anything, so it neither records its business id nor
      freezes its data. */
  lemma LaterTriesWriteNothing(kv: KV, id: string, req: TCCReq, id': string, req': TCCReq)
    requires GetValue(kv, BuildTXKey(id, req.txID)) !in {Some(TRIED), Some(CONFIRMED), Some(CANCELED)}
    ensures var s := TryStep(kv, id, req);
      TryStep(s.kv, id', req') == Step(s.kv, Success(TCCResp(id', true, req'.txID)))
  {
  }

  /** The consequence for a two-participant transaction on a fresh store: the
      second participant's Try acks, but its Confirm is rejected, because its
      Try never recorded a business id nor froze any data. A coordinator that
      confirmed both would retry that Confirm forever. */
  lemma SecondParticipantCannotConfirm(a: string, b: string, txID: string, bizA: string, bizB: string)
    requires ColonFree(a) && ColonFree(b) && a != b
    ensures var s1 := TryStep(map[], a, TCCReq(a, txID, bizA));
      var s2 := TryStep(s1.kv, b, TCCReq(b, txID, bizB));
      && Acked(s1) && Acked(s2) && s2.kv == s1.kv
      && Acked(ConfirmStep(s1.kv, a, txID))
      && !Acked(ConfirmStep(s1.kv, b, txID))
  {
    var s1 := TryStep(map[], a, TCCReq(a, txID, bizA));
    var dA, kA := BuildTXDetailKey(a, txID), BuildDataKey(a, txID, bizA);
    var dB, kB := BuildTXDetailKey(b, txID), BuildDataKey(b, txID, "null");
    DetailKeyIsDistinct(a, txID, a, txID, bizA);
    DataKeyIsNotTXKey(a, txID, bizA, a, txID);
    assert s1.kv == map[dA := bizA, kA := FROZEN, BuildTXKey(a, txID) := TRIED];
    // A's Confirm finds its own business id and frozen data.
    assert GetValue(s1.kv, kA) == Some(FROZEN);
    // B's detail key is none of the three keys A wrote.
    DetailKeyInjective(b, txID, a, txID);
    DetailKeyIsDistinct(b, txID, a, txID, bizA);
    assert GetValue(s1.kv, dB) == None;
    // So B reads its data under business id "null", which A never wrote.
    DataKeyNamesItsComponent(b, txID, "null", a, txID, bizA);
    DataKeyIsNotTXKey(b, txID, "null", a, txID);
    DetailKeyIsDistinct(a, txID, b, txID, "null");
    assert GetValue(s1.kv, kB) == None;
  }
}
