/** The coordinator (src/txmanager.ts): request resolution, the Try phase,
    the finalize sweep, the batch recovery pass and the recovery scheduler's
    delay arithmetic, over the registry, the reference store and abstract
    components.

    Components, `Lock` and `Unlock` are outside the model: every call the
    coordinator makes to them is an `Event` appended to a call log, and the
    reply is whatever the environment `Env` answers given the calls made so
    far. */
module TxManager {
  import opened Wrappers
  import opened Errors
  import opened Component
  import opened Model
  import opened Registry
  import opened TxRecordDao
  import opened TxStore

  /* ---------- options and the recovery scheduler ---------- */

  datatype Options = Options(timeout: int, monitorTick: int)

  /** The constructor's `opts.timeout || 5000` and `opts.monitorTick || 10000`:
      a missing or zero value takes the default. */
  function ResolveOptions(timeout: Option<int>, monitorTick: Option<int>): (o: Options)
    ensures timeout.None? || timeout == Some(0) ==> o.timeout == 5000
    ensures timeout.Some? && timeout.value != 0 ==> o.timeout == timeout.value
    ensures monitorTick.None? || monitorTick == Some(0) ==> o.monitorTick == 10000
    ensures monitorTick.Some? && monitorTick.value != 0 ==> o.monitorTick == monitorTick.value
    ensures o.timeout != 0 && o.monitorTick != 0
  {
    var t := if timeout.Some? && timeout.value != 0 then timeout.value else 5 * 1000;
    var m := if monitorTick.Some? && monitorTick.value != 0 then monitorTick.value else 10 * 1000;
    Options(t, m)
  }

  /** `monitorTick << 3` stays inside the 32-bit range of JavaScript's shift. */
  predicate ShiftSafe(monitorTick: int) {
    -0x1000_0000 <= monitorTick <= 0x0FFF_FFFF
  }

  /** `#backOffTick`: the doubled tick, capped at eight monitor ticks. */
  function BackOffTick(tick: int, monitorTick: int): (r: int)
    requires -0x4000_0000 <= tick <= 0x3FFF_FFFF && ShiftSafe(monitorTick)
    ensures r <= 2 * tick && r <= 8 * monitorTick
    ensures r == 2 * tick || r == 8 * monitorTick
  {
    var t := tick * 2;
    var threshold := monitorTick * 8;
    if t > threshold then threshold else t
  }

  /** How a firing of the recovery timer ended. */
  datatype FireOutcome =
    | LockRejected   // `Lock` threw: `fn()` with no error
    | PassFailed     // the scan, a finalize or `Unlock` threw: `fn(e)`
    | PassCompleted  // `Unlock` returned: `fn()`

  /** The delay of the timer armed at the end of a firing. Every firing first
      sets `tick` to `monitorTick`, so only a failed locked phase backs off,
      and only once. */
  function NextDelay(monitorTick: int, outcome: FireOutcome): int
    requires ShiftSafe(monitorTick)
  {
    if outcome == PassFailed then BackOffTick(monitorTick, monitorTick) else monitorTick
  }

  /** The delays of the timers `#run` arms: 0 for the first, then one per firing. */
  function Delays(monitorTick: int, outcomes: seq<FireOutcome>): (d: seq<int>)
    requires ShiftSafe(monitorTick)
    ensures |d| == |outcomes| + 1 && d[0] == 0
    decreases |outcomes|
  {
    if outcomes == [] then [0]
    else Delays(monitorTick, outcomes[..|outcomes| - 1]) + [NextDelay(monitorTick, outcomes[|outcomes| - 1])]
  }

  /** With a positive monitor tick, every delay after the first is one monitor
      tick, or two after a failed locked phase: the back-off never compounds,
      and a streak of lock failures keeps polling at the monitor tick. */
  lemma {:induction false} DelaysNeverCompound(monitorTick: int, outcomes: seq<FireOutcome>, i: nat)
    requires ShiftSafe(monitorTick) && monitorTick > 0
    requires 0 < i <= |outcomes|
    ensures Delays(monitorTick, outcomes)[i] ==
      if outcomes[i - 1] == PassFailed then 2 * monitorTick else monitorTick
    ensures Delays(monitorTick, outcomes)[i] <= 8 * monitorTick
    decreases |outcomes|
  {
    var init := outcomes[..|outcomes| - 1];
    if i < |outcomes| {
      DelaysNeverCompound(monitorTick, init, i);
      assert Delays(monitorTick, outcomes)[i] == Delays(monitorTick, init)[i];
    }
  }

  /* ---------- calls to the world outside the model ---------- */

  /** `new TCCReq(id, txID, componentEntity.request)`: the whole request
      entity travels as the request data. */
  datatype TCCRequest = TCCRequest(componentID: string, txID: string, data: RequestEntity)

  datatype Event =
    | TryCall(target: ComponentRef, req: TCCRequest)
    | ConfirmCall(target: ComponentRef, txID: string)
    | CancelCall(target: ComponentRef, txID: string)
    | LockCall(expireDuration: int)
    | UnlockCall

  /** A call either returns (components answer with `ack`; for `Lock` and
      `Unlock` the value is ignored) or throws. */
  datatype Reply = Returned(ack: bool) | Threw

  /** The world's answer to a call, given every call made before it. */
  type Env = (seq<Event>, Event) -> Reply

  /** The calls made so far and the record table. */
  datatype Progress = Progress(calls: seq<Event>, rows: seq<TXRecord>)

  datatype Outcome<T> = Outcome(after: Progress, result: Result<T, Error>)

  /* ---------- request resolution: #getComponents ---------- */

  function Names(reqs: seq<RequestEntity>): (ids: seq<string>)
    ensures |ids| == |reqs| && forall i :: 0 <= i < |reqs| ==> ids[i] == reqs[i].componentName
  {
    seq(|reqs|, i requires 0 <= i < |reqs| => reqs[i].componentName)
  }

  /** The `idToReq` dictionary: each name bound to the request given for it. */
  function IdToReq(reqs: seq<RequestEntity>): map<string, RequestEntity>
    decreases |reqs|
  {
    if reqs == [] then map[]
    else IdToReq(reqs[..|reqs| - 1])[reqs[|reqs| - 1].componentName := reqs[|reqs| - 1]]
  }

  /** Exactly the requested names are bound, each to a request that carries it. */
  lemma {:induction false} IdToReqKeys(reqs: seq<RequestEntity>)
    ensures forall name :: name in IdToReq(reqs) <==> name in Names(reqs)
    ensures forall name :: name in IdToReq(reqs) ==> IdToReq(reqs)[name].componentName == name
    decreases |reqs|
  {
    if reqs != [] {
      var init := reqs[..|reqs| - 1];
      IdToReqKeys(init);
      assert Names(reqs) == Names(init) + [reqs[|reqs| - 1].componentName];
    }
  }

  /** One more request extends both the dictionary and the name list. */
  lemma PrefixStep(reqs: seq<RequestEntity>, i: nat)
    requires i < |reqs|
    ensures IdToReq(reqs[..i + 1]) == IdToReq(reqs[..i])[reqs[i].componentName := reqs[i]]
    ensures Names(reqs[..i + 1]) == Names(reqs[..i]) + [reqs[i].componentName]
  {
    assert reqs[..i + 1][..i] == reqs[..i];
  }

  /** Each name is bound to the last request that carries it. */
  lemma {:induction false} LastRequestWins(reqs: seq<RequestEntity>, i: nat)
    requires i < |reqs|
    requires forall j :: i < j < |reqs| ==> reqs[j].componentName != reqs[i].componentName
    ensures reqs[i].componentName in IdToReq(reqs) && IdToReq(reqs)[reqs[i].componentName] == reqs[i]
    decreases |reqs|
  {
    var n := |reqs| - 1;
    if i < n {
      LastRequestWins(reqs[..n], i);
    }
  }

  /** `#getComponents`: every name registered, each entity pairing the
      registered component with the request `idToReq` holds for its id. */
  function Resolve(dir: Directory, reqs: seq<RequestEntity>): (r: Result<seq<ComponentEntity>, Error>)
    requires Keyed(dir)
    ensures r.Success? <==> forall i :: 0 <= i < |reqs| ==> reqs[i].componentName in dir
    ensures r.Success? ==> |r.value| == |reqs| && forall i :: 0 <= i < |reqs| ==>
      && r.value[i].component == dir[reqs[i].componentName]
      && r.value[i].request.componentName == reqs[i].componentName
    ensures r.Failure? ==> exists i :: 0 <= i < |reqs| && r.error == UnknownComponentID(reqs[i].componentName)
  {
    LookupOfNames(dir, reqs);
    match Lookup(dir, Names(reqs))
    case Failure(e) => Failure(e)
    case Success(cs) =>
      var idToReq := IdToReq(reqs);
      IdToReqKeys(reqs);
      Success(Pair(cs, idToReq))
  }

  /** Looking the requested names up finds each of them, registered under its
      own name, or fails on one that is not registered. */
  lemma LookupOfNames(dir: Directory, reqs: seq<RequestEntity>)
    requires Keyed(dir)
    ensures Lookup(dir, Names(reqs)).Success? <==> forall i :: 0 <= i < |reqs| ==> reqs[i].componentName in dir
    ensures Lookup(dir, Names(reqs)).Success? ==>
      var cs := Lookup(dir, Names(reqs)).value;
      |cs| == |reqs| && forall i :: 0 <= i < |reqs| ==>
        cs[i] == dir[reqs[i].componentName] && cs[i].id == reqs[i].componentName && cs[i].id in Names(reqs)
    ensures Lookup(dir, Names(reqs)).Failure? ==>
      exists i :: 0 <= i < |reqs| && Lookup(dir, Names(reqs)).error == UnknownComponentID(reqs[i].componentName)
  {
    var ids := Names(reqs);
    assert forall i :: 0 <= i < |reqs| ==> ids[i] == reqs[i].componentName && ids[i] in ids;
  }

  /** The `Promise.all(components.map(...))` that pairs each component with `idToReq[await component.ID()]`. */
  function Pair(cs: seq<ComponentRef>, idToReq: map<string, RequestEntity>): (es: seq<ComponentEntity>)
    requires forall i :: 0 <= i < |cs| ==> cs[i].id in idToReq
    ensures |es| == |cs| && forall i :: 0 <= i < |cs| ==> es[i] == ComponentEntity(idToReq[cs[i].id], cs[i])
  {
    seq(|cs|, i requires 0 <= i < |cs| => ComponentEntity(idToReq[cs[i].id], cs[i]))
  }

  /** `Resolve` fails with the lookup's error, or pairs what the lookup found. */
  lemma ResolveFromLookup(dir: Directory, reqs: seq<RequestEntity>)
    requires Keyed(dir)
    ensures Lookup(dir, Names(reqs)).Failure? ==> Resolve(dir, reqs) == Failure(Lookup(dir, Names(reqs)).error)
    ensures Lookup(dir, Names(reqs)).Success? ==>
      && (forall i :: 0 <= i < |Lookup(dir, Names(reqs)).value| ==> Lookup(dir, Names(reqs)).value[i].id in IdToReq(reqs))
      && Resolve(dir, reqs) == Success(Pair(Lookup(dir, Names(reqs)).value, IdToReq(reqs)))
  {
    IdToReqKeys(reqs);
  }

  /** With a repeated name, every entity for it carries the last request given for it. */
  lemma RepeatedNameTakesLastRequest(dir: Directory, reqs: seq<RequestEntity>, i: nat, j: nat)
    requires Keyed(dir) && Resolve(dir, reqs).Success?
    requires i < |reqs| && j < |reqs| && reqs[i].componentName == reqs[j].componentName
    requires forall k :: j < k < |reqs| ==> reqs[k].componentName != reqs[j].componentName
    ensures Resolve(dir, reqs).value[i].request == reqs[j]
  {
    LastRequestWins(reqs, j);
  }

  function ComponentsOf(es: seq<ComponentEntity>): (cs: seq<ComponentRef>)
    ensures |cs| == |es| && forall i :: 0 <= i < |es| ==> cs[i] == es[i].component
  {
    seq(|es|, i requires 0 <= i < |es| => es[i].component)
  }

  /* ---------- the Try phase: #twoPhaseCommit ---------- */

  function TryEvent(txID: string, e: ComponentEntity): Event {
    TryCall(e.component, TCCRequest(e.component.id, txID, e.request))
  }

  function TryEvents(txID: string, es: seq<ComponentEntity>): (evs: seq<Event>)
    ensures |evs| == |es| && forall i :: 0 <= i < |es| ==> evs[i] == TryEvent(txID, es[i])
  {
    seq(|es|, i requires 0 <= i < |es| => TryEvent(txID, es[i]))
  }

  /** The state after some Try calls settled, and whether all were fulfilled. */
  datatype Settled = Settled(after: Progress, fulfilled: bool)

  /** One Try: an ack records TrySucceesful, a nack TryFailure, a throw
      nothing. It is fulfilled only on an ack whose record update succeeded. */
  function TryOne(env: Env, p: Progress, txID: string, e: ComponentEntity): Settled {
    var ev := TryEvent(txID, e);
    var calls := p.calls + [ev];
    match env(p.calls, ev)
    case Threw => Settled(Progress(calls, p.rows), false)
    case Returned(ack) =>
      match SetComponentStatus(p.rows, txID, e.component.id, if ack then TrySucceesful else TryFailure)
      case Failure(_) => Settled(Progress(calls, p.rows), false)
      case Success(rows) => Settled(Progress(calls, rows), ack)
  }

  /** Every Try attempted, in order, whatever the earlier ones did. */
  function TryPhase(env: Env, p: Progress, txID: string, es: seq<ComponentEntity>): Settled
    decreases |es|
  {
    if es == [] then Settled(p, true)
    else
      var s := TryPhase(env, p, txID, es[..|es| - 1]);
      var t := TryOne(env, s.after, txID, es[|es| - 1]);
      Settled(t.after, s.fulfilled && t.fulfilled)
  }

  /** The reply the `i`-th Try receives in a Try phase started at `calls`. */
  function TryReply(env: Env, calls: seq<Event>, txID: string, es: seq<ComponentEntity>, i: nat): Reply
    requires i < |es|
  {
    env(calls + TryEvents(txID, es[..i]), TryEvent(txID, es[i]))
  }

  /** Every component gets exactly one Try, in order, whatever the others answered. */
  lemma {:induction false} TryPhaseCallsEveryComponent(env: Env, p: Progress, txID: string, es: seq<ComponentEntity>)
    ensures TryPhase(env, p, txID, es).after.calls == p.calls + TryEvents(txID, es)
    decreases |es|
  {
    if es != [] {
      var init := es[..|es| - 1];
      TryPhaseCallsEveryComponent(env, p, txID, init);
      TryOneCalls(env, TryPhase(env, p, txID, init).after, txID, es[|es| - 1]);
      assert TryEvents(txID, es) == TryEvents(txID, init) + [TryEvent(txID, es[|es| - 1])];
    }
  }

  /** One Try makes exactly its own call. */
  lemma TryOneCalls(env: Env, p: Progress, txID: string, e: ComponentEntity)
    ensures TryOne(env, p, txID, e).after.calls == p.calls + [TryEvent(txID, e)]
  {
  }

  predicate HasEntries(rows: seq<TXRecord>, txID: string, es: seq<ComponentEntity>) {
    forall i :: 0 <= i < |es| ==> StatusAt(rows, txID, es[i].component.id).Some?
  }

  /** One Try keeps the table valid and every entry in place. */
  lemma TryOneKeepsEntries(env: Env, p: Progress, txID: string, e: ComponentEntity, es: seq<ComponentEntity>)
    requires ValidTable(p.rows) && HasEntries(p.rows, txID, es)
    ensures var t := TryOne(env, p, txID, e);
      ValidTable(t.after.rows) && HasEntries(t.after.rows, txID, es)
  {
    var reply := env(p.calls, TryEvent(txID, e));
    if reply.Returned? {
      var st := if reply.ack then TrySucceesful else TryFailure;
      if SetComponentStatus(p.rows, txID, e.component.id, st).Success? {
        var rows' := SetComponentStatus(p.rows, txID, e.component.id, st).value;
        SetComponentStatusWritesOneEntry(p.rows, txID, e.component.id, st, txID, txID);
        forall i | 0 <= i < |es|
          ensures StatusAt(rows', txID, es[i].component.id).Some?
        {
          SetComponentStatusWritesOneEntry(p.rows, txID, e.component.id, st, txID, es[i].component.id);
        }
      }
    }
  }

  /** A Try on an existing entry is fulfilled exactly when the component acks. */
  lemma TryOneFulfilledIffAck(env: Env, p: Progress, txID: string, e: ComponentEntity)
    requires StatusAt(p.rows, txID, e.component.id).Some?
    ensures TryOne(env, p, txID, e).fulfilled <==> env(p.calls, TryEvent(txID, e)) == Returned(true)
  {
  }

  /** The replies of the first `n` Trys do not depend on the components after them. */
  lemma TryReplyOfPrefix(env: Env, calls: seq<Event>, txID: string, es: seq<ComponentEntity>, n: nat, i: nat)
    requires i < n <= |es|
    ensures TryReply(env, calls, txID, es[..n], i) == TryReply(env, calls, txID, es, i)
  {
    assert es[..n][..i] == es[..i];
  }

  /** The Try phase keeps the table valid and every entry in place. */
  lemma {:induction false} TryPhaseKeepsEntries(env: Env, p: Progress, txID: string, es: seq<ComponentEntity>,
                                                all: seq<ComponentEntity>)
    requires ValidTable(p.rows) && HasEntries(p.rows, txID, all)
    ensures ValidTable(TryPhase(env, p, txID, es).after.rows) && HasEntries(TryPhase(env, p, txID, es).after.rows, txID, all)
    decreases |es|
  {
    if es != [] {
      var init := es[..|es| - 1];
      TryPhaseKeepsEntries(env, p, txID, init, all);
      TryOneKeepsEntries(env, TryPhase(env, p, txID, init).after, txID, es[|es| - 1], all);
    }
  }

  /** On a record that holds an entry for every component, the Try phase is
      fulfilled exactly when every Try answered ack. */
  lemma {:induction false} TryPhaseFulfilledIffAllAck(env: Env, p: Progress, txID: string, es: seq<ComponentEntity>)
    requires ValidTable(p.rows) && HasEntries(p.rows, txID, es)
    ensures TryPhase(env, p, txID, es).fulfilled <==>
      forall i :: 0 <= i < |es| ==> TryReply(env, p.calls, txID, es, i) == Returned(true)
    decreases |es|
  {
    if es != [] {
      var n := |es| - 1;
      var init := es[..n];
      var e := es[n];
      var s := TryPhase(env, p, txID, init);
      var t := TryOne(env, s.after, txID, e);
      assert TryPhase(env, p, txID, es).fulfilled == (s.fulfilled && t.fulfilled);
      assert HasEntries(p.rows, txID, init);
      TryPhaseFulfilledIffAllAck(env, p, txID, init);
      forall i | 0 <= i < n
        ensures TryReply(env, p.calls, txID, init, i) == TryReply(env, p.calls, txID, es, i)
      {
        TryReplyOfPrefix(env, p.calls, txID, es, n, i);
      }
      assert t.fulfilled <==> TryReply(env, p.calls, txID, es, n) == Returned(true) by {
        TryPhaseCallsEveryComponent(env, p, txID, init);
        assert StatusAt(s.after.rows, txID, e.component.id).Some? by {
          TryPhaseKeepsEntries(env, p, txID, init, es);
        }
        TryOneFulfilledIffAck(env, s.after, txID, e);
      }
      if s.fulfilled && t.fulfilled {
        forall i | 0 <= i < |es|
          ensures TryReply(env, p.calls, txID, es, i) == Returned(true)
        {
          if i < n {
            assert TryReply(env, p.calls, txID, init, i) == Returned(true);
          } else {
            assert i == n;
          }
        }
      }
    }
  }

  /* ---------- the finalize sweep: #advanceProgress ---------- */

  function FinalizeEvent(target: ComponentRef, txID: string, success: bool): Event {
    if success then ConfirmCall(target, txID) else CancelCall(target, txID)
  }

  predicate AllRegistered(dir: Directory, cs: seq<ComponentTryEntity>) {
    forall i :: 0 <= i < |cs| ==> cs[i].componentID in dir
  }

  /** The Confirm (or Cancel) calls for `cs`, in stored order. */
  function FinalizeEvents(dir: Directory, txID: string, success: bool, cs: seq<ComponentTryEntity>): (evs: seq<Event>)
    requires AllRegistered(dir, cs)
    ensures |evs| == |cs| && forall i :: 0 <= i < |cs| ==> evs[i] == FinalizeEvent(dir[cs[i].componentID], txID, success)
  {
    seq(|cs|, i requires 0 <= i < |cs| => FinalizeEvent(dir[cs[i].componentID], txID, success))
  }

  datatype Swept = Swept(calls: seq<Event>, result: Result<(), Error>)

  /** One component of the sweep: look it up, call Confirm or Cancel, require an ack. */
  function SweepOne(env: Env, dir: Directory, calls: seq<Event>, txID: string, success: bool,
                    c: ComponentTryEntity): Swept
  {
    match Lookup(dir, [c.componentID])
    case Failure(e) => Swept(calls, Failure(e))
    case Success(targets) =>
      var ev := FinalizeEvent(targets[0], txID, success);
      match env(calls, ev)
      case Threw => Swept(calls + [ev], Failure(ComponentCallFailed(c.componentID)))
      case Returned(ack) =>
        Swept(calls + [ev], if ack then Success(()) else Failure(ComponentAckRejected(c.componentID)))
  }

  /** The sweep over the stored components, stopping at the first failure. */
  function Sweep(env: Env, dir: Directory, calls: seq<Event>, txID: string, success: bool,
                 cs: seq<ComponentTryEntity>): Swept
    decreases |cs|
  {
    if cs == [] then Swept(calls, Success(()))
    else
      var s := Sweep(env, dir, calls, txID, success, cs[..|cs| - 1]);
      if s.result.Failure? then s else SweepOne(env, dir, s.calls, txID, success, cs[|cs| - 1])
  }

  /** The sweep over one more component. */
  lemma SweepStep(env: Env, dir: Directory, calls: seq<Event>, txID: string, success: bool,
                  cs: seq<ComponentTryEntity>, i: nat)
    requires i < |cs|
    ensures var s := Sweep(env, dir, calls, txID, success, cs[..i]);
      Sweep(env, dir, calls, txID, success, cs[..i + 1]) ==
        if s.result.Failure? then s else SweepOne(env, dir, s.calls, txID, success, cs[i])
  {
    assert cs[..i + 1][..i] == cs[..i];
  }

  /** Once a prefix of the sweep fails, nothing after it is called. */
  lemma {:induction false} SweepStopsAtFirstFailure(env: Env, dir: Directory, calls: seq<Event>, txID: string,
                                                    success: bool, cs: seq<ComponentTryEntity>, k: nat)
    requires k <= |cs| && Sweep(env, dir, calls, txID, success, cs[..k]).result.Failure?
    ensures Sweep(env, dir, calls, txID, success, cs) == Sweep(env, dir, calls, txID, success, cs[..k])
    decreases |cs|
  {
    if k < |cs| {
      var init := cs[..|cs| - 1];
      assert init[..k] == cs[..k];
      SweepStopsAtFirstFailure(env, dir, calls, txID, success, init, k);
    } else {
      assert cs[..k] == cs;
    }
  }

  /** The reply the `i`-th component receives in a sweep started at `calls`. */
  function SweepReply(env: Env, dir: Directory, calls: seq<Event>, txID: string, success: bool,
                      cs: seq<ComponentTryEntity>, i: nat): Reply
    requires i < |cs| && AllRegistered(dir, cs)
  {
    env(calls + FinalizeEvents(dir, txID, success, cs[..i]), FinalizeEvent(dir[cs[i].componentID], txID, success))
  }

  /** One step of the sweep: an unregistered component fails without a call;
      a registered one gets its call and must ack. */
  lemma SweepOneCalls(env: Env, dir: Directory, calls: seq<Event>, txID: string, success: bool, c: ComponentTryEntity)
    ensures var s := SweepOne(env, dir, calls, txID, success, c);
      if c.componentID in dir then
        var ev := FinalizeEvent(dir[c.componentID], txID, success);
        s.calls == calls + [ev] && (s.result.Success? <==> env(calls, ev) == Returned(true))
      else
        s == Swept(calls, Failure(UnknownComponentID(c.componentID)))
  {
    if c.componentID in dir {
      assert Lookup(dir, [c.componentID]).value == [dir[c.componentID]];
    }
  }

  /** The replies of the first `n` components do not depend on those after them. */
  lemma SweepReplyOfPrefix(env: Env, dir: Directory, calls: seq<Event>, txID: string, success: bool,
                           cs: seq<ComponentTryEntity>, n: nat, i: nat)
    requires i < n <= |cs| && AllRegistered(dir, cs)
    ensures AllRegistered(dir, cs[..n])
    ensures SweepReply(env, dir, calls, txID, success, cs[..n], i) == SweepReply(env, dir, calls, txID, success, cs, i)
  {
    assert cs[..n][..i] == cs[..i];
  }

  /** All the replies of the first `n` components, as in `SweepReplyOfPrefix`. */
  lemma SweepRepliesOfPrefix(env: Env, dir: Directory, calls: seq<Event>, txID: string, success: bool,
                             cs: seq<ComponentTryEntity>, n: nat)
    requires n <= |cs| && AllRegistered(dir, cs)
    ensures AllRegistered(dir, cs[..n])
    ensures forall i :: 0 <= i < n ==>
      SweepReply(env, dir, calls, txID, success, cs[..n], i) == SweepReply(env, dir, calls, txID, success, cs, i)
  {
    forall i | 0 <= i < n
      ensures SweepReply(env, dir, calls, txID, success, cs[..n], i) == SweepReply(env, dir, calls, txID, success, cs, i)
    {
      SweepReplyOfPrefix(env, dir, calls, txID, success, cs, n, i);
    }
  }

  /** A sweep calls Confirm (or Cancel) on a prefix of the components, in stored order. */
  lemma {:induction false} SweepCallsAPrefix(env: Env, dir: Directory, calls: seq<Event>, txID: string,
                                             success: bool, cs: seq<ComponentTryEntity>)
    ensures exists k ::
      && 0 <= k <= |cs| && AllRegistered(dir, cs[..k])
      && Sweep(env, dir, calls, txID, success, cs).calls == calls + FinalizeEvents(dir, txID, success, cs[..k])
    ensures Sweep(env, dir, calls, txID, success, cs).result.Success? ==>
      AllRegistered(dir, cs) &&
      Sweep(env, dir, calls, txID, success, cs).calls == calls + FinalizeEvents(dir, txID, success, cs)
    decreases |cs|
  {
    if cs == [] {
      assert cs[..0] == cs;
    } else {
      var n := |cs| - 1;
      var init, c := cs[..n], cs[n];
      var p := Sweep(env, dir, calls, txID, success, init);
      var sw := Sweep(env, dir, calls, txID, success, cs);
      assert sw == if p.result.Failure? then p else SweepOne(env, dir, p.calls, txID, success, c);
      var k: nat :| k <= n && AllRegistered(dir, init[..k]) &&
                    p.calls == calls + FinalizeEvents(dir, txID, success, init[..k]) &&
                    (p.result.Success? ==> AllRegistered(dir, init) &&
                                           p.calls == calls + FinalizeEvents(dir, txID, success, init))
      by {
        SweepCallsAPrefix(env, dir, calls, txID, success, init);
        assert init[..n] == init;
      }
      if p.result.Failure? {
        assert AllRegistered(dir, cs[..k]) && sw.calls == calls + FinalizeEvents(dir, txID, success, cs[..k]) by {
          assert init[..k] == cs[..k];
        }
      } else if c.componentID in dir {
        assert AllRegistered(dir, cs) && sw.calls == calls + FinalizeEvents(dir, txID, success, cs) by {
          SweepOneCalls(env, dir, p.calls, txID, success, c);
          FinalizeEventsSnoc(dir, txID, success, cs);
        }
        assert cs[..|cs|] == cs;
      } else {
        assert sw.calls == calls + FinalizeEvents(dir, txID, success, cs[..n]) by {
          SweepOneCalls(env, dir, p.calls, txID, success, c);
        }
      }
    }
  }

  /** Extending the components by a registered one appends its call. */
  lemma FinalizeEventsSnoc(dir: Directory, txID: string, success: bool, cs: seq<ComponentTryEntity>)
    requires |cs| > 0 && AllRegistered(dir, cs[..|cs| - 1]) && cs[|cs| - 1].componentID in dir
    ensures AllRegistered(dir, cs)
    ensures FinalizeEvents(dir, txID, success, cs) ==
      FinalizeEvents(dir, txID, success, cs[..|cs| - 1]) + [FinalizeEvent(dir[cs[|cs| - 1].componentID], txID, success)]
  {
    var n := |cs| - 1;
    forall i | 0 <= i < |cs|
      ensures cs[i].componentID in dir
    {
      if i < n {
        assert cs[i] == cs[..n][i];
      }
    }
  }

  /** A sweep succeeds exactly when every stored component is registered and acks. */
  lemma {:induction false} SweepSucceedsIffAllAck(env: Env, dir: Directory, calls: seq<Event>, txID: string,
                                                  success: bool, cs: seq<ComponentTryEntity>)
    ensures Sweep(env, dir, calls, txID, success, cs).result.Success? <==>
      AllRegistered(dir, cs) &&
      forall i :: 0 <= i < |cs| ==> SweepReply(env, dir, calls, txID, success, cs, i) == Returned(true)
    decreases |cs|
  {
    if cs != [] {
      var n := |cs| - 1;
      var init := cs[..n];
      var c := cs[n];
      var p := Sweep(env, dir, calls, txID, success, init);
      SweepSucceedsIffAllAck(env, dir, calls, txID, success, init);
      var sw := Sweep(env, dir, calls, txID, success, cs);
      assert sw == if p.result.Failure? then p else SweepOne(env, dir, p.calls, txID, success, c);
      if p.result.Failure? {
        if AllRegistered(dir, cs) {
          assert AllRegistered(dir, init);
          var i :| 0 <= i < n && SweepReply(env, dir, calls, txID, success, init, i) != Returned(true);
          SweepReplyOfPrefix(env, dir, calls, txID, success, cs, n, i);
        }
      } else if AllRegistered(dir, cs) {
        SweepCallsAPrefix(env, dir, calls, txID, success, init);
        SweepOneCalls(env, dir, p.calls, txID, success, c);
        assert init == cs[..n];
        SweepRepliesOfPrefix(env, dir, calls, txID, success, cs, n);
        assert sw.result.Success? <==> SweepReply(env, dir, calls, txID, success, cs, n) == Returned(true) by {
          assert env(p.calls, FinalizeEvent(dir[c.componentID], txID, success)) ==
                 SweepReply(env, dir, calls, txID, success, cs, n);
        }
      } else {
        assert c.componentID !in dir by {
          assert forall i :: 0 <= i < n ==> cs[i] == init[i];
        }
        SweepOneCalls(env, dir, p.calls, txID, success, c);
      }
    }
  }

  /* ---------- finalizing one transaction: #advanceProgress ---------- */

  /** `#advanceProgress` at time `now`: a transaction that derives Hanging is
      left alone; otherwise the sweep runs, and only a clean sweep submits. */
  function Advance(env: Env, dir: Directory, p: Progress, tx: Transaction, now: int, timeout: int): Outcome<()> {
    var status := DeriveStatus(tx, now - timeout);
    if status == TXHanging then Outcome(p, Success(()))
    else
      var success := status == TXSuccessful;
      var s := Sweep(env, dir, p.calls, tx.txID, success, tx.components);
      if s.result.Failure? then Outcome(Progress(s.calls, p.rows), s.result)
      else
        match SetRecordStatus(p.rows, tx.txID, if success then TXSuccessful else TXFailure, now)
        case Failure(e) => Outcome(Progress(s.calls, p.rows), Failure(e))
        case Success(rows) => Outcome(Progress(s.calls, rows), Success(()))
  }

  /** A transaction the coordinator loads at `now` carries `now` as its
      creation time, so with a non-negative timeout the timeout never
      decides: finalizing acts as with a timeout of 0, and a transaction whose
      entries still hang is left alone however long it has been stored. */
  lemma LoadedAdvanceIgnoresTimeout(env: Env, dir: Directory, p: Progress, rows: seq<TXRecord>, tx: Transaction,
                                    now: int, timeout: int)
    requires tx in HangingTransactions(rows, now) || LoadTX(rows, tx.txID, now) == Success(tx)
    requires timeout >= 0
    ensures Advance(env, dir, p, tx, now, timeout) == Advance(env, dir, p, tx, now, 0)
    ensures ComponentsStatus(tx.components) == TXHanging ==> Advance(env, dir, p, tx, now, timeout) == Outcome(p, Success(()))
  {
    LoadedTransactionsNeverTimeOut(rows, now, now - timeout, tx);
    LoadedTransactionsNeverTimeOut(rows, now, now - 0, tx);
  }

  /** A sweep whose `i`-th component fails, after a clean prefix, ends the
      finalize with that failure and writes nothing. */
  lemma AdvanceStopsAt(env: Env, dir: Directory, p: Progress, tx: Transaction, now: int, timeout: int,
                       i: nat, calls: seq<Event>)
    requires DeriveStatus(tx, now - timeout) != TXHanging && i < |tx.components|
    requires var success := DeriveStatus(tx, now - timeout) == TXSuccessful;
      && Sweep(env, dir, p.calls, tx.txID, success, tx.components[..i]) == Swept(calls, Success(()))
      && SweepOne(env, dir, calls, tx.txID, success, tx.components[i]).result.Failure?
    ensures var one := SweepOne(env, dir, calls, tx.txID, DeriveStatus(tx, now - timeout) == TXSuccessful,
                                tx.components[i]);
      Advance(env, dir, p, tx, now, timeout) == Outcome(Progress(one.calls, p.rows), one.result)
  {
    var success := DeriveStatus(tx, now - timeout) == TXSuccessful;
    assert tx.components[..i + 1][..i] == tx.components[..i];
    SweepStopsAtFirstFailure(env, dir, p.calls, tx.txID, success, tx.components, i + 1);
  }

  /** What finalizing one transaction does: a Hanging one is left as it is; a
      failed finalize writes nothing; a successful one has called Confirm
      (derived Successful) or Cancel (derived Failure) on every stored
      component in order, and its record has left the hanging scan. */
  lemma AdvanceSettles(env: Env, dir: Directory, p: Progress, tx: Transaction, now: int, timeout: int, later: int)
    requires Keyed(dir) && ValidTable(p.rows)
    ensures var o := Advance(env, dir, p, tx, now, timeout);
      var status := DeriveStatus(tx, now - timeout);
      && (status == TXHanging ==> o == Outcome(p, Success(())))
      && (o.result.Failure? ==> o.after.rows == p.rows)
      && ValidTable(o.after.rows)
      && (o.result.Success? && status != TXHanging ==>
            && AllRegistered(dir, tx.components)
            && o.after.calls == p.calls + FinalizeEvents(dir, tx.txID, status == TXSuccessful, tx.components)
            && RecordStatus(o.after.rows, tx.txID) == Some(status)
            && SubmittedAs(p.rows, o.after.rows, tx.txID, status, now)
            && forall t :: t in HangingTransactions(o.after.rows, later) ==> t.txID != tx.txID)
  {
    var status := DeriveStatus(tx, now - timeout);
    if status != TXHanging {
      var success := status == TXSuccessful;
      SweepCallsAPrefix(env, dir, p.calls, tx.txID, success, tx.components);
      var u := SetRecordStatus(p.rows, tx.txID, if success then TXSuccessful else TXFailure, now);
      if u.Success? {
        SubmittedIsNoLongerHanging(p.rows, tx.txID, success, now, later);
        SetRecordStatusStores(p.rows, tx.txID, if success then TXSuccessful else TXFailure, now);
      }
    }
  }

  /** `#advanceProgressByTXID`: load the transaction, then finalize it. */
  function AdvanceByTXID(env: Env, dir: Directory, p: Progress, txID: string, now: int, timeout: int): Outcome<()> {
    match LoadTX(p.rows, txID, now)
    case Failure(e) => Outcome(p, Failure(e))
    case Success(tx) => Advance(env, dir, p, tx, now, timeout)
  }

  /* ---------- the batch recovery pass: #batchAdvanceProgress ---------- */

  /** Every transaction attempted in turn; the pass fails with the first error. */
  function Batch(env: Env, dir: Directory, p: Progress, txs: seq<Transaction>, now: int, timeout: int): Outcome<()>
    decreases |txs|
  {
    if txs == [] then Outcome(p, Success(()))
    else
      var b := Batch(env, dir, p, txs[..|txs| - 1], now, timeout);
      var a := Advance(env, dir, b.after, txs[|txs| - 1], now, timeout);
      Outcome(a.after, if b.result.Failure? then b.result else a.result)
  }

  /** The state the `k`-th attempt of a pass starts from. */
  function BatchAttempt(env: Env, dir: Directory, p: Progress, txs: seq<Transaction>, now: int, timeout: int,
                        k: nat): Outcome<()>
    requires k < |txs|
  {
    Advance(env, dir, Batch(env, dir, p, txs[..k], now, timeout).after, txs[k], now, timeout)
  }

  /** The pass fails exactly when one of its attempts fails, and then with
      the error of the first failing one; no failure stops the later attempts. */
  lemma {:induction false} BatchFailsIffSomeAttemptFails(env: Env, dir: Directory, p: Progress,
                                                         txs: seq<Transaction>, now: int, timeout: int)
    ensures Batch(env, dir, p, txs, now, timeout).result.Failure? <==>
      exists k :: 0 <= k < |txs| && BatchAttempt(env, dir, p, txs, now, timeout, k).result.Failure?
    ensures Batch(env, dir, p, txs, now, timeout).result.Failure? ==>
      exists k :: 0 <= k < |txs| && Batch(env, dir, p, txs[..k], now, timeout).result.Success? &&
        Batch(env, dir, p, txs, now, timeout).result == BatchAttempt(env, dir, p, txs, now, timeout, k).result
    decreases |txs|
  {
    if txs != [] {
      var n := |txs| - 1;
      var init := txs[..n];
      var b := Batch(env, dir, p, init, now, timeout);
      var whole := Batch(env, dir, p, txs, now, timeout);
      BatchFailsIffSomeAttemptFails(env, dir, p, init, now, timeout);
      assert txs[..n] == init;
      var last := BatchAttempt(env, dir, p, txs, now, timeout, n);
      assert last == Advance(env, dir, b.after, txs[n], now, timeout);
      assert whole.result == if b.result.Failure? then b.result else last.result;
      if b.result.Failure? {
        var k :| 0 <= k < n && Batch(env, dir, p, init[..k], now, timeout).result.Success? &&
          b.result == BatchAttempt(env, dir, p, init, now, timeout, k).result;
        BatchAttemptOnPrefix(env, dir, p, txs, now, timeout, k);
        assert Batch(env, dir, p, txs[..k], now, timeout).result.Success? &&
          whole.result == BatchAttempt(env, dir, p, txs, now, timeout, k).result;
      } else {
        forall k | 0 <= k < n
          ensures BatchAttempt(env, dir, p, txs, now, timeout, k).result.Success?
        {
          BatchAttemptOnPrefix(env, dir, p, txs, now, timeout, k);
        }
        if whole.result.Failure? {
          assert Batch(env, dir, p, txs[..n], now, timeout).result.Success?;
        }
        if k :| 0 <= k < |txs| && BatchAttempt(env, dir, p, txs, now, timeout, k).result.Failure? {
          assert k == n;
        }
      }
    }
  }

  /** An attempt before the last one is the same attempt of the pass without the last transaction. */
  lemma BatchAttemptOnPrefix(env: Env, dir: Directory, p: Progress, txs: seq<Transaction>, now: int, timeout: int,
                             k: nat)
    requires k < |txs| - 1
    ensures BatchAttempt(env, dir, p, txs, now, timeout, k) == BatchAttempt(env, dir, p, txs[..|txs| - 1], now, timeout, k)
    ensures Batch(env, dir, p, txs[..k], now, timeout) == Batch(env, dir, p, txs[..|txs| - 1][..k], now, timeout)
  {
    assert txs[..k] == txs[..|txs| - 1][..k];
  }

  /* ---------- the two-phase commit and `transaction` ---------- */

  /** `#twoPhaseCommit`: every Try settles, then the stored transaction is
      finalized; the answer is whether every Try was fulfilled, unless the
      finalize threw. */
  function TwoPhase(env: Env, dir: Directory, p: Progress, txID: string, es: seq<ComponentEntity>,
                    now: int, timeout: int): Outcome<bool>
  {
    var t := TryPhase(env, p, txID, es);
    var a := AdvanceByTXID(env, dir, t.after, txID, now, timeout);
    Outcome(a.after, if a.result.Failure? then Failure(a.result.error) else Success(t.fulfilled))
  }

  /** `transaction(...reqs)`: resolve, create the record (its id allocated by
      the store, here `newId`), then the two-phase commit. */
  function Run(env: Env, dir: Directory, p: Progress, reqs: seq<RequestEntity>, newId: string,
               now: int, timeout: int): Outcome<bool>
    requires Keyed(dir)
  {
    match Resolve(dir, reqs)
    case Failure(e) => Outcome(p, Failure(e))
    case Success(es) =>
      if HasRecord(p.rows, newId) then Outcome(p, Failure(DuplicateRecordID(newId)))
      else
        var created := Progress(p.calls, p.rows + [NewRecord(newId, IDs(ComponentsOf(es)), now)]);
        TwoPhase(env, dir, created, newId, es, now, timeout)
  }

  /** Appending the record `CreateTX` builds keeps the table valid. */
  lemma NewRecordIsValid(rows: seq<TXRecord>, newId: string, ids: seq<string>, now: int)
    requires ValidTable(rows) && !HasRecord(rows, newId)
    ensures ValidTable(rows + [NewRecord(newId, ids, now)])
  {
    InitialStatusesHaveDistinctKeys(ids);
  }

  /** A freshly created record holds an entry for every component of the transaction. */
  lemma NewRecordHasEntries(rows: seq<TXRecord>, newId: string, es: seq<ComponentEntity>, now: int)
    requires !HasRecord(rows, newId)
    ensures HasEntries(rows + [NewRecord(newId, IDs(ComponentsOf(es)), now)], newId, es)
  {
    var ids := IDs(ComponentsOf(es));
    var rec := NewRecord(newId, ids, now);
    var rows' := rows + [rec];
    assert FindFirst(rows', newId) == Some(|rows|) by {
      assert rows'[|rows|].id == newId;
    }
    InitialStatusesShape(ids);
    forall i | 0 <= i < |es|
      ensures StatusAt(rows', newId, es[i].component.id).Some?
    {
      assert rows'[|rows|] == rec;
      assert ids[i] == es[i].component.id && ids[i] in ids;
      assert HasKey(rec.componentTryStatuses, es[i].component.id);
    }
  }

  /** `transaction` always tries every component once, in request order,
      and, when it returns, its answer is whether every Try acked. */
  lemma TransactionAnswersWhetherEveryTryAcked(env: Env, dir: Directory, p: Progress, reqs: seq<RequestEntity>,
                                               newId: string, now: int, timeout: int)
    requires Keyed(dir) && ValidTable(p.rows)
    requires Resolve(dir, reqs).Success? && !HasRecord(p.rows, newId)
    ensures var es := Resolve(dir, reqs).value;
      var t := TryPhase(env, Progress(p.calls, p.rows + [NewRecord(newId, IDs(ComponentsOf(es)), now)]), newId, es);
      var r := Run(env, dir, p, reqs, newId, now, timeout);
      && t.after.calls == p.calls + TryEvents(newId, es)
      && (r.result.Success? ==>
            (r.result.value <==> forall i :: 0 <= i < |es| ==> TryReply(env, p.calls, newId, es, i) == Returned(true)))
  {
    var es := Resolve(dir, reqs).value;
    var created := Progress(p.calls, p.rows + [NewRecord(newId, IDs(ComponentsOf(es)), now)]);
    NewRecordIsValid(p.rows, newId, IDs(ComponentsOf(es)), now);
    NewRecordHasEntries(p.rows, newId, es, now);
    TryPhaseCallsEveryComponent(env, created, newId, es);
    TryPhaseFulfilledIffAllAck(env, created, newId, es);
  }

  /** The try status a Try's reply leaves in its entry: a throw records nothing. */
  function Recorded(reply: Reply, before: ComponentTryStatus): ComponentTryStatus {
    match reply
    case Threw => before
    case Returned(ack) => if ack then TrySucceesful else TryFailure
  }

  predicate DistinctComponents(es: seq<ComponentEntity>) {
    forall i, j :: 0 <= i < j < |es| ==> es[i].component.id != es[j].component.id
  }

  /** One Try writes at most its own entry, and then the status its reply means. */
  lemma TryOneWrites(env: Env, p: Progress, txID: string, e: ComponentEntity, c: string)
    requires ValidTable(p.rows) && StatusAt(p.rows, txID, e.component.id).Some?
    ensures var rows' := TryOne(env, p, txID, e).after.rows;
      && SameShape(p.rows, rows')
      && StatusAt(rows', txID, c) ==
           if c == e.component.id then Some(Recorded(env(p.calls, TryEvent(txID, e)), StatusAt(p.rows, txID, c).value))
           else StatusAt(p.rows, txID, c)
  {
    var reply := env(p.calls, TryEvent(txID, e));
    if reply.Returned? {
      var st := if reply.ack then TrySucceesful else TryFailure;
      SetComponentStatusWritesOneEntry(p.rows, txID, e.component.id, st, txID, c);
    }
  }

  lemma SameShapeTrans(a: seq<TXRecord>, b: seq<TXRecord>, c: seq<TXRecord>)
    requires SameShape(a, b) && SameShape(b, c)
    ensures SameShape(a, c)
  {
  }

  /** With distinct components, each entry ends up holding what its own Try
      answered (unchanged if it threw); keys, ids and the other columns stay. */
  lemma {:induction false} TryPhaseKeepsShape(env: Env, p: Progress, txID: string, es: seq<ComponentEntity>)
    requires ValidTable(p.rows) && HasEntries(p.rows, txID, es)
    ensures SameShape(p.rows, TryPhase(env, p, txID, es).after.rows)
    decreases |es|
  {
    if es != [] {
      var n := |es| - 1;
      var init, e := es[..n], es[n];
      var s := TryPhase(env, p, txID, init);
      assert HasEntries(p.rows, txID, init);
      TryPhaseKeepsShape(env, p, txID, init);
      assert ValidTable(s.after.rows) && StatusAt(s.after.rows, txID, e.component.id).Some? by {
        TryPhaseKeepsEntries(env, p, txID, init, es);
      }
      TryOneWrites(env, s.after, txID, e, e.component.id);
      SameShapeTrans(p.rows, s.after.rows, TryOne(env, s.after, txID, e).after.rows);
    }
  }

  /** The Try phase leaves the entries of components it does not try unchanged. */
  lemma {:induction false} TryPhaseLeavesOthers(env: Env, p: Progress, txID: string, es: seq<ComponentEntity>,
                                                c: string)
    requires ValidTable(p.rows) && HasEntries(p.rows, txID, es)
    requires forall i :: 0 <= i < |es| ==> es[i].component.id != c
    ensures StatusAt(TryPhase(env, p, txID, es).after.rows, txID, c) == StatusAt(p.rows, txID, c)
    decreases |es|
  {
    if es != [] {
      var n := |es| - 1;
      var init, e := es[..n], es[n];
      var s := TryPhase(env, p, txID, init);
      assert HasEntries(p.rows, txID, init);
      assert forall i :: 0 <= i < n ==> init[i].component.id != c;
      TryPhaseLeavesOthers(env, p, txID, init, c);
      assert ValidTable(s.after.rows) && StatusAt(s.after.rows, txID, e.component.id).Some? by {
        TryPhaseKeepsEntries(env, p, txID, init, es);
      }
      TryOneWrites(env, s.after, txID, e, c);
    }
  }

  /** With distinct components, the `i`-th entry ends up holding what its own Try answered. */
  lemma {:induction false} TryPhaseRecordsReply(env: Env, p: Progress, txID: string, es: seq<ComponentEntity>, i: nat)
    requires ValidTable(p.rows) && HasEntries(p.rows, txID, es) && DistinctComponents(es) && i < |es|
    ensures StatusAt(TryPhase(env, p, txID, es).after.rows, txID, es[i].component.id) ==
      Some(Recorded(TryReply(env, p.calls, txID, es, i), StatusAt(p.rows, txID, es[i].component.id).value))
    decreases |es|
  {
    var n := |es| - 1;
    var init, e := es[..n], es[n];
    var s := TryPhase(env, p, txID, init);
    assert TryPhase(env, p, txID, es).after.rows == TryOne(env, s.after, txID, e).after.rows;
    assert HasEntries(p.rows, txID, init) && DistinctComponents(init);
    assert ValidTable(s.after.rows) && StatusAt(s.after.rows, txID, e.component.id).Some? by {
      TryPhaseKeepsEntries(env, p, txID, init, es);
    }
    TryOneWrites(env, s.after, txID, e, es[i].component.id);
    if i == n {
      assert env(s.after.calls, TryEvent(txID, e)) == TryReply(env, p.calls, txID, es, n) by {
        TryPhaseCallsEveryComponent(env, p, txID, init);
      }
      assert StatusAt(s.after.rows, txID, e.component.id) == StatusAt(p.rows, txID, e.component.id) by {
        assert forall j :: 0 <= j < n ==> init[j].component.id != e.component.id;
        TryPhaseLeavesOthers(env, p, txID, init, e.component.id);
      }
    } else {
      assert init[i] == es[i];
      TryPhaseRecordsReply(env, p, txID, init, i);
      TryReplyOfPrefix(env, p.calls, txID, es, n, i);
    }
  }

  lemma KeyIndexOfDistinct(obj: StatusObject, e: nat)
    requires DistinctKeys(obj) && e < |obj|
    ensures KeyIndex(obj, obj[e].componentID) == Some(e)
  {
  }

  /** The record `CreateTX` appends: valid, found last, one Hanging entry per
      component, keyed in component order. */
  lemma FreshRecord(rows: seq<TXRecord>, es: seq<ComponentEntity>, newId: string, now: int)
    requires ValidTable(rows) && !HasRecord(rows, newId) && DistinctComponents(es)
    ensures var rows0 := rows + [NewRecord(newId, IDs(ComponentsOf(es)), now)];
      && ValidTable(rows0) && HasEntries(rows0, newId, es)
      && FindFirst(rows0, newId) == Some(|rows|)
      && KeysOf(rows0[|rows|].componentTryStatuses) == IDs(ComponentsOf(es))
      && forall i :: 0 <= i < |es| ==> StatusAt(rows0, newId, es[i].component.id) == Some(TryHanging)
  {
    var ids := IDs(ComponentsOf(es));
    var rows0 := rows + [NewRecord(newId, ids, now)];
    NewRecordIsValid(rows, newId, ids, now);
    EntityIDs(es);
    FreshRecordStatuses(rows, ids, newId, now);
    EntitiesHang(rows0, newId, es, ids);
  }

  /** Entities whose ids all read as Hanging all have entries, each Hanging. */
  lemma EntitiesHang(rows: seq<TXRecord>, id: string, es: seq<ComponentEntity>, ids: seq<string>)
    requires |ids| == |es| && forall i :: 0 <= i < |es| ==> ids[i] == es[i].component.id
    requires forall i :: 0 <= i < |ids| ==> StatusAt(rows, id, ids[i]) == Some(TryHanging)
    ensures HasEntries(rows, id, es)
    ensures forall i :: 0 <= i < |es| ==> StatusAt(rows, id, es[i].component.id) == Some(TryHanging)
  {
    forall i | 0 <= i < |es|
      ensures StatusAt(rows, id, es[i].component.id) == Some(TryHanging)
    {
      assert es[i].component.id == ids[i];
    }
  }

  /** The ids of the entities' components, one per entity in order; distinct
      exactly when no two entities share a component id. */
  lemma EntityIDs(es: seq<ComponentEntity>)
    ensures var ids := IDs(ComponentsOf(es));
      && |ids| == |es| && (forall i :: 0 <= i < |es| ==> ids[i] == es[i].component.id)
      && (DistinctComponents(es) <==> Distinct(ids))
  {
  }

  /** The fresh record's keys are the given ids, each reading as Hanging. */
  lemma FreshRecordStatuses(rows: seq<TXRecord>, ids: seq<string>, newId: string, now: int)
    requires !HasRecord(rows, newId) && Distinct(ids)
    ensures var rows0 := rows + [NewRecord(newId, ids, now)];
      && FindFirst(rows0, newId) == Some(|rows|)
      && KeysOf(rows0[|rows|].componentTryStatuses) == ids
      && forall i :: 0 <= i < |ids| ==> StatusAt(rows0, newId, ids[i]) == Some(TryHanging)
  {
    var rec := NewRecord(newId, ids, now);
    var rows0 := rows + [rec];
    var obj := rec.componentTryStatuses;
    assert FindFirst(rows0, newId) == Some(|rows|) by {
      assert rows0[|rows|].id == newId;
    }
    assert rows0[|rows|] == rec;
    assert && KeysOf(obj) == ids && DistinctKeys(obj)
           && forall j :: 0 <= j < |obj| ==> obj[j].tryStatus == TryHanging
    by {
      InitialStatusesShape(ids);
    }
    FreshRecordHanging(rows0, newId, |rows|, ids);
  }

  /** In a record found at `k` whose keys are `ids`, kept distinct, and whose
      entries all hang, every one of `ids` reads as Hanging. */
  lemma FreshRecordHanging(rows: seq<TXRecord>, id: string, k: nat, ids: seq<string>)
    requires FindFirst(rows, id) == Some(k) && k < |rows|
    requires KeysOf(rows[k].componentTryStatuses) == ids && DistinctKeys(rows[k].componentTryStatuses)
    requires forall j :: 0 <= j < |rows[k].componentTryStatuses| ==> rows[k].componentTryStatuses[j].tryStatus == TryHanging
    ensures forall i :: 0 <= i < |ids| ==> StatusAt(rows, id, ids[i]) == Some(TryHanging)
  {
    var obj := rows[k].componentTryStatuses;
    forall i | 0 <= i < |ids|
      ensures StatusAt(rows, id, ids[i]) == Some(TryHanging)
    {
      assert obj[i].componentID == KeysOf(obj)[i];
      KeyIndexOfDistinct(obj, i);
    }
  }

  /** A record whose keys are those of `cs` and whose entries read, through
      `StatusAt`, as the statuses of `cs` loads back as exactly `cs`. */
  lemma LoadsAs(rows: seq<TXRecord>, id: string, k: nat, now: int, cs: seq<ComponentTryEntity>)
    requires ValidTable(rows) && FindFirst(rows, id) == Some(k)
    requires KeysOf(rows[k].componentTryStatuses) == KeysOf(cs)
    requires forall i :: 0 <= i < |cs| ==> StatusAt(rows, id, cs[i].componentID) == Some(cs[i].tryStatus)
    ensures LoadTX(rows, id, now) == Success(Transaction(id, cs, now))
  {
    var obj := rows[k].componentTryStatuses;
    assert |obj| == |KeysOf(obj)| == |cs|;
    forall i | 0 <= i < |cs|
      ensures obj[i] == cs[i]
    {
      assert obj[i].componentID == KeysOf(obj)[i] == KeysOf(cs)[i] == cs[i].componentID;
      KeyIndexOfDistinct(obj, i);
    }
    assert obj == cs;
    GetTXFindsTheRecord(rows, id, now);
  }

  /** The entries a record holds once each component's Try has answered. */
  function Tried(env: Env, calls: seq<Event>, txID: string, es: seq<ComponentEntity>): (cs: seq<ComponentTryEntity>)
    ensures |cs| == |es|
  {
    seq(|es|, i requires 0 <= i < |es| =>
      ComponentTryEntity(es[i].component.id, Recorded(TryReply(env, calls, txID, es, i), TryHanging)))
  }

  /** After the Try phase on a freshly created record, `GetTX` loads it back
      with one entry per component, in request order, each holding what that
      component's Try answered (still Hanging if it threw). */
  lemma LoadedAfterTryPhase(env: Env, p: Progress, es: seq<ComponentEntity>, newId: string, now: int)
    requires ValidTable(p.rows) && !HasRecord(p.rows, newId) && DistinctComponents(es)
    ensures var created := Progress(p.calls, p.rows + [NewRecord(newId, IDs(ComponentsOf(es)), now)]);
      var rows' := TryPhase(env, created, newId, es).after.rows;
      && ValidTable(rows')
      && LoadTX(rows', newId, now) == Success(Transaction(newId, Tried(env, p.calls, newId, es), now))
  {
    var created := Progress(p.calls, p.rows + [NewRecord(newId, IDs(ComponentsOf(es)), now)]);
    var rows' := TryPhase(env, created, newId, es).after.rows;
    var tried := Tried(env, p.calls, newId, es);
    TriedRecord(env, p, es, newId, now);
    assert KeysOf(tried) == IDs(ComponentsOf(es));
    LoadsAs(rows', newId, |p.rows|, now, tried);
  }

  /** The table after the Try phase on a freshly created record: the record is
      found where it was appended, keyed in component order, and each entry
      holds what its component's Try answered. */
  lemma TriedRecord(env: Env, p: Progress, es: seq<ComponentEntity>, newId: string, now: int)
    requires ValidTable(p.rows) && !HasRecord(p.rows, newId) && DistinctComponents(es)
    ensures var created := Progress(p.calls, p.rows + [NewRecord(newId, IDs(ComponentsOf(es)), now)]);
      var rows' := TryPhase(env, created, newId, es).after.rows;
      && ValidTable(rows') && FindFirst(rows', newId) == Some(|p.rows|)
      && KeysOf(rows'[|p.rows|].componentTryStatuses) == IDs(ComponentsOf(es))
      && forall i :: 0 <= i < |es| ==>
           StatusAt(rows', newId, es[i].component.id) == Some(Tried(env, p.calls, newId, es)[i].tryStatus)
  {
    var rows0 := p.rows + [NewRecord(newId, IDs(ComponentsOf(es)), now)];
    var created := Progress(p.calls, rows0);
    var rows' := TryPhase(env, created, newId, es).after.rows;
    FreshRecord(p.rows, es, newId, now);
    TryPhaseKeepsEntries(env, created, newId, es, es);
    TryPhaseKeepsShape(env, created, newId, es);
    FindFirstOnSameIds(rows0, rows', newId);
    forall i | 0 <= i < |es|
      ensures StatusAt(rows', newId, es[i].component.id) == Some(Tried(env, p.calls, newId, es)[i].tryStatus)
    {
      TryPhaseRecordsReply(env, created, newId, es, i);
    }
  }

  /** The Confirm (or Cancel) calls for the resolved components, in request order. */
  function FinalizeAll(txID: string, success: bool, es: seq<ComponentEntity>): (evs: seq<Event>)
    ensures |evs| == |es| && forall i :: 0 <= i < |es| ==> evs[i] == FinalizeEvent(es[i].component, txID, success)
  {
    seq(|es|, i requires 0 <= i < |es| => FinalizeEvent(es[i].component, txID, success))
  }

  /** Distinct names resolve to distinct, registered components. */
  lemma ResolvedDistinct(dir: Directory, reqs: seq<RequestEntity>)
    requires Keyed(dir) && Resolve(dir, reqs).Success? && Distinct(Names(reqs))
    ensures var es := Resolve(dir, reqs).value;
      && DistinctComponents(es)
      && forall i :: 0 <= i < |es| ==> es[i].component.id in dir && dir[es[i].component.id] == es[i].component
  {
    var es := Resolve(dir, reqs).value;
    forall i | 0 <= i < |es|
      ensures es[i].component.id == Names(reqs)[i]
    {
      assert es[i].component == dir[reqs[i].componentName];
    }
  }

  /** `transaction` end to end, for distinct component names: after one Try per
      component, the record's derived status decides. Hanging leaves it to the
      recovery pass; otherwise, when the finalize succeeds, every component got
      Confirm (Successful) or Cancel (Failure) in request order, the record
      stores that status, no other row changed, and the record has left the
      hanging scan; a failed finalize leaves the table as the Try phase wrote it. */
  lemma TransactionFinalizesAsDerived(env: Env, dir: Directory, p: Progress, reqs: seq<RequestEntity>,
                                      newId: string, now: int, timeout: int, later: int)
    requires Keyed(dir) && ValidTable(p.rows) && Resolve(dir, reqs).Success? && Distinct(Names(reqs))
    requires !HasRecord(p.rows, newId)
    ensures var es := Resolve(dir, reqs).value;
      var created := Progress(p.calls, p.rows + [NewRecord(newId, IDs(ComponentsOf(es)), now)]);
      var t := TryPhase(env, created, newId, es);
      var status := DeriveStatus(Transaction(newId, Tried(env, p.calls, newId, es), now), now - timeout);
      var r := Run(env, dir, p, reqs, newId, now, timeout);
      && (status == TXHanging ==> r == Outcome(t.after, Success(t.fulfilled)))
      && (r.result.Failure? ==> r.after.rows == t.after.rows)
      && (r.result.Success? && status != TXHanging ==>
            && r.after.calls == p.calls + TryEvents(newId, es) + FinalizeAll(newId, status == TXSuccessful, es)
            && RecordStatus(r.after.rows, newId) == Some(status)
            && SubmittedAs(t.after.rows, r.after.rows, newId, status, now)
            && forall tx :: tx in HangingTransactions(r.after.rows, later) ==> tx.txID != newId)
  {
    var es := Resolve(dir, reqs).value;
    var created := Progress(p.calls, p.rows + [NewRecord(newId, IDs(ComponentsOf(es)), now)]);
    var t := TryPhase(env, created, newId, es);
    var tx := Transaction(newId, Tried(env, p.calls, newId, es), now);
    var status := DeriveStatus(tx, now - timeout);
    var r := Run(env, dir, p, reqs, newId, now, timeout);
    var a := Advance(env, dir, t.after, tx, now, timeout);
    assert ValidTable(t.after.rows) &&
           r == Outcome(a.after, if a.result.Failure? then Failure(a.result.error) else Success(t.fulfilled))
    by {
      ResolvedDistinct(dir, reqs);
      LoadedAfterTryPhase(env, p, es, newId, now);
    }
    AdvanceSettles(env, dir, t.after, tx, now, timeout, later);
    if r.result.Success? && status != TXHanging {
      var success := status == TXSuccessful;
      assert t.after.calls == p.calls + TryEvents(newId, es) by {
        TryPhaseCallsEveryComponent(env, created, newId, es);
      }
      assert FinalizeEvents(dir, newId, success, tx.components) == FinalizeAll(newId, success, es) by {
        FinalizeEventsOfTried(env, dir, p.calls, reqs, newId, success);
      }
    }
  }

  /** The finalize calls of a reloaded record are the finalize calls of the
      resolved components, in request order. */
  lemma FinalizeEventsOfTried(env: Env, dir: Directory, calls: seq<Event>, reqs: seq<RequestEntity>,
                              txID: string, success: bool)
    requires Keyed(dir) && Resolve(dir, reqs).Success? && Distinct(Names(reqs))
    ensures var es := Resolve(dir, reqs).value;
      var cs := Tried(env, calls, txID, es);
      AllRegistered(dir, cs) && FinalizeEvents(dir, txID, success, cs) == FinalizeAll(txID, success, es)
  {
    var es := Resolve(dir, reqs).value;
    var cs := Tried(env, calls, txID, es);
    ResolvedDistinct(dir, reqs);
    assert forall i :: 0 <= i < |es| ==> cs[i].componentID == es[i].component.id;
  }

  /** A Try that answers false fails the transaction: `transaction` returns
      false and, once its finalize succeeds, every component got Cancel and
      the record is stored as Failure. */
  lemma RejectedTryCancelsEveryComponent(env: Env, dir: Directory, p: Progress, reqs: seq<RequestEntity>,
                                         newId: string, now: int, timeout: int, later: int, k: nat)
    requires Keyed(dir) && ValidTable(p.rows) && Resolve(dir, reqs).Success? && Distinct(Names(reqs))
    requires !HasRecord(p.rows, newId)
    requires k < |reqs| && TryReply(env, p.calls, newId, Resolve(dir, reqs).value, k) == Returned(false)
    ensures var es := Resolve(dir, reqs).value;
      var r := Run(env, dir, p, reqs, newId, now, timeout);
      r.result.Success? ==>
        && r.result.value == false
        && r.after.calls == p.calls + TryEvents(newId, es) + FinalizeAll(newId, false, es)
        && RecordStatus(r.after.rows, newId) == Some(TXFailure)
        && forall tx :: tx in HangingTransactions(r.after.rows, later) ==> tx.txID != newId
  {
    var es := Resolve(dir, reqs).value;
    var tx := Transaction(newId, Tried(env, p.calls, newId, es), now);
    assert DeriveStatus(tx, now - timeout) == TXFailure by {
      assert tx.components[k].tryStatus == TryFailure;
      FailureAnywhereFails(tx, now - timeout, k);
    }
    TransactionFinalizesAsDerived(env, dir, p, reqs, newId, now, timeout, later);
    TransactionAnswersWhetherEveryTryAcked(env, dir, p, reqs, newId, now, timeout);
  }

  /** Every Try acking within a non-negative timeout commits: `transaction`
      returns true and, once its finalize succeeds, every component got Confirm
      and the record is stored as Successful. */
  lemma AckedTriesConfirmEveryComponent(env: Env, dir: Directory, p: Progress, reqs: seq<RequestEntity>,
                                        newId: string, now: int, timeout: int, later: int)
    requires Keyed(dir) && ValidTable(p.rows) && Resolve(dir, reqs).Success? && Distinct(Names(reqs))
    requires !HasRecord(p.rows, newId) && timeout >= 0
    requires var es := Resolve(dir, reqs).value;
      forall i :: 0 <= i < |es| ==> TryReply(env, p.calls, newId, es, i) == Returned(true)
    ensures var es := Resolve(dir, reqs).value;
      var r := Run(env, dir, p, reqs, newId, now, timeout);
      r.result.Success? ==>
        && r.result.value == true
        && r.after.calls == p.calls + TryEvents(newId, es) + FinalizeAll(newId, true, es)
        && RecordStatus(r.after.rows, newId) == Some(TXSuccessful)
        && forall tx :: tx in HangingTransactions(r.after.rows, later) ==> tx.txID != newId
  {
    var es := Resolve(dir, reqs).value;
    var tx := Transaction(newId, Tried(env, p.calls, newId, es), now);
    assert DeriveStatus(tx, now - timeout) == TXSuccessful by {
      AllAckedTried(env, p.calls, newId, es);
      AllSucceededSucceeds(tx, now - timeout);
    }
    TransactionFinalizesAsDerived(env, dir, p, reqs, newId, now, timeout, later);
    TransactionAnswersWhetherEveryTryAcked(env, dir, p, reqs, newId, now, timeout);
  }

  /** With every Try acked, every reloaded entry reads TrySucceesful. */
  lemma AllAckedTried(env: Env, calls: seq<Event>, txID: string, es: seq<ComponentEntity>)
    requires forall i :: 0 <= i < |es| ==> TryReply(env, calls, txID, es, i) == Returned(true)
    ensures forall i :: 0 <= i < |es| ==> Tried(env, calls, txID, es)[i].tryStatus == TrySucceesful
  {
  }

  /** A transaction derived Successful whose components all ack Confirm
      finalizes without error. */
  lemma AdvanceCommits(env: Env, dir: Directory, p: Progress, tx: Transaction, now: int, timeout: int)
    requires HasRecord(p.rows, tx.txID) && AllRegistered(dir, tx.components)
    requires DeriveStatus(tx, now - timeout) == TXSuccessful
    requires forall calls: seq<Event>, c: ComponentRef :: env(calls, ConfirmCall(c, tx.txID)) == Returned(true)
    ensures Advance(env, dir, p, tx, now, timeout).result.Success?
  {
    SweepSucceedsIffAllAck(env, dir, p.calls, tx.txID, true, tx.components);
  }

  /** With every Try acked, every tried component's entry reads Successful,
      also when a component is tried more than once. */
  lemma {:induction false} AllAckedPhaseSucceeds(env: Env, p: Progress, txID: string, es: seq<ComponentEntity>)
    requires ValidTable(p.rows) && HasEntries(p.rows, txID, es) && TriesAck(env, p.calls, txID, es)
    ensures SucceededAt(TryPhase(env, p, txID, es).after.rows, txID, es)
    decreases |es|
  {
    if es != [] {
      var n := |es| - 1;
      var init, e := es[..n], es[n];
      SplitLast(es);
      var s := TryPhase(env, p, txID, init);
      assert TryPhase(env, p, txID, es).after.rows == TryOne(env, s.after, txID, e).after.rows;
      assert SucceededAt(s.after.rows, txID, init) by {
        assert HasEntries(p.rows, txID, init);
        AckedPrefix(env, p.calls, txID, es, n);
        AllAckedPhaseSucceeds(env, p, txID, init);
      }
      assert ValidTable(s.after.rows) && StatusAt(s.after.rows, txID, e.component.id).Some? by {
        TryPhaseKeepsEntries(env, p, txID, init, es);
      }
      assert env(s.after.calls, TryEvent(txID, e)) == Returned(true) by {
        TryPhaseCallsEveryComponent(env, p, txID, init);
        assert TryReply(env, p.calls, txID, es, n) == Returned(true);
      }
      AckedTryOneSucceeds(env, s.after, txID, e, init);
    }
  }

  lemma SplitLast<T>(s: seq<T>)
    requires |s| > 0
    ensures s == s[..|s| - 1] + [s[|s| - 1]]
  {
  }

  /** Every Try of `es` acks. */
  predicate TriesAck(env: Env, calls: seq<Event>, txID: string, es: seq<ComponentEntity>) {
    forall i :: 0 <= i < |es| ==> TryReply(env, calls, txID, es, i) == Returned(true)
  }

  /** Every component of `es` has a Successful entry in record `txID`. */
  predicate SucceededAt(rows: seq<TXRecord>, txID: string, es: seq<ComponentEntity>) {
    forall i :: 0 <= i < |es| ==> StatusAt(rows, txID, es[i].component.id) == Some(TrySucceesful)
  }

  /** Every Try of a prefix acks when every Try of the whole sequence does. */
  lemma AckedPrefix(env: Env, calls: seq<Event>, txID: string, es: seq<ComponentEntity>, n: nat)
    requires n <= |es| && TriesAck(env, calls, txID, es)
    ensures TriesAck(env, calls, txID, es[..n])
  {
    forall i | 0 <= i < n
      ensures TryReply(env, calls, txID, es[..n], i) == Returned(true)
    {
      TryReplyOfPrefix(env, calls, txID, es, n, i);
    }
  }

  /** The step of `AllAckedPhaseSucceeds`: an acked Try makes its own entry
      Successful and keeps the entries of `init` Successful. */
  lemma AckedTryOneSucceeds(env: Env, q: Progress, txID: string, e: ComponentEntity, init: seq<ComponentEntity>)
    requires ValidTable(q.rows) && StatusAt(q.rows, txID, e.component.id).Some?
    requires env(q.calls, TryEvent(txID, e)) == Returned(true)
    requires SucceededAt(q.rows, txID, init)
    ensures SucceededAt(TryOne(env, q, txID, e).after.rows, txID, init + [e])
  {
    var es := init + [e];
    forall i | 0 <= i < |es|
      ensures StatusAt(TryOne(env, q, txID, e).after.rows, txID, es[i].component.id) == Some(TrySucceesful)
    {
      TryOneWrites(env, q, txID, e, es[i].component.id);
      if i < |init| {
        assert es[i] == init[i];
      }
    }
  }

  /** Resolved components are registered under their own names. */
  lemma ResolvedRegistered(dir: Directory, reqs: seq<RequestEntity>)
    requires Keyed(dir) && Resolve(dir, reqs).Success?
    ensures var es := Resolve(dir, reqs).value;
      forall i :: 0 <= i < |es| ==> es[i].component.id == reqs[i].componentName && es[i].component.id in dir
  {
  }

  /** After the Try phase on a freshly created record, `GetTX` loads it back
      (whatever the Trys answered, and also when a component appears more
      than once): its keys are the ids of registered components `es`, a
      repeated id giving one key, and each entry holds that key's status. */
  lemma TriedRecordLoads(env: Env, dir: Directory, p: Progress, es: seq<ComponentEntity>, newId: string, now: int)
    requires ValidTable(p.rows) && !HasRecord(p.rows, newId)
    requires forall i :: 0 <= i < |es| ==> es[i].component.id in dir
    ensures var created := Progress(p.calls, p.rows + [NewRecord(newId, IDs(ComponentsOf(es)), now)]);
      var rows' := TryPhase(env, created, newId, es).after.rows;
      && ValidTable(rows') && HasEntries(rows', newId, es)
      && LoadTX(rows', newId, now).Success?
      && (var tx := LoadTX(rows', newId, now).value;
          && tx.txID == newId && tx.createdAt == now
          && AllRegistered(dir, tx.components) && KeyedBy(rows', newId, es, tx.components))
  {
    var ids := IDs(ComponentsOf(es));
    var created := Progress(p.calls, p.rows + [NewRecord(newId, ids, now)]);
    var rows' := TryPhase(env, created, newId, es).after.rows;
    TriedRecordKeys(env, p, es, newId, now);
    var obj := rows'[|p.rows|].componentTryStatuses;
    assert KeyedBy(rows', newId, es, obj) by {
      RecordKeyedBy(rows', newId, |p.rows|, es);
    }
    assert AllRegistered(dir, obj) by {
      RegisteredKeys(dir, es, obj);
    }
    assert LoadTX(rows', newId, now).Success? && LoadTX(rows', newId, now).value.components == obj by {
      GetTXFindsTheRecord(rows', newId, now);
    }
    GetTXFindsTheRecord(rows', newId, now);
  }

  /** `cs` holds one entry per distinct component of `es`, and nothing else;
      each entry holds what `StatusAt` reads for its key. */
  predicate KeyedBy(rows: seq<TXRecord>, txID: string, es: seq<ComponentEntity>, cs: seq<ComponentTryEntity>) {
    && DistinctKeys(cs)
    && (forall i :: 0 <= i < |es| ==> HasKey(cs, es[i].component.id))
    && forall j :: 0 <= j < |cs| ==>
         && (exists i :: 0 <= i < |es| && es[i].component.id == cs[j].componentID)
         && StatusAt(rows, txID, cs[j].componentID) == Some(cs[j].tryStatus)
  }

  /** Keys drawn from registered components are registered. */
  lemma RegisteredKeys(dir: Directory, es: seq<ComponentEntity>, cs: seq<ComponentTryEntity>)
    requires forall i :: 0 <= i < |es| ==> es[i].component.id in dir
    requires forall j :: 0 <= j < |cs| ==> exists i :: 0 <= i < |es| && es[i].component.id == cs[j].componentID
    ensures AllRegistered(dir, cs)
  {
    forall j | 0 <= j < |cs|
      ensures cs[j].componentID in dir
    {
      var i :| 0 <= i < |es| && es[i].component.id == cs[j].componentID;
    }
  }

  /** After the Try phase on a freshly created record, the record sits where
      it was appended and its keys are the members of the components' ids. */
  lemma TriedRecordKeys(env: Env, p: Progress, es: seq<ComponentEntity>, newId: string, now: int)
    requires ValidTable(p.rows) && !HasRecord(p.rows, newId)
    ensures var ids := IDs(ComponentsOf(es));
      var created := Progress(p.calls, p.rows + [NewRecord(newId, ids, now)]);
      var rows' := TryPhase(env, created, newId, es).after.rows;
      && ValidTable(rows') && HasEntries(rows', newId, es)
      && FindFirst(rows', newId) == Some(|p.rows|) && |p.rows| < |rows'|
      && forall key :: HasKey(rows'[|p.rows|].componentTryStatuses, key) <==> key in ids
  {
    var ids := IDs(ComponentsOf(es));
    var init := InitialStatuses(ids);
    var rows0 := p.rows + [NewRecord(newId, ids, now)];
    var created := Progress(p.calls, rows0);
    var rows' := TryPhase(env, created, newId, es).after.rows;
    assert ValidTable(rows0) && HasEntries(rows0, newId, es) by {
      NewRecordIsValid(p.rows, newId, ids, now);
      NewRecordHasEntries(p.rows, newId, es, now);
    }
    assert ValidTable(rows') && HasEntries(rows', newId, es) && SameShape(rows0, rows') by {
      TryPhaseKeepsEntries(env, created, newId, es, es);
      TryPhaseKeepsShape(env, created, newId, es);
    }
    AppendedRecordKeys(rows0, rows', p.rows, newId, init);
    KeyedAsInitial(rows'[|p.rows|].componentTryStatuses, ids);
  }

  /** A table of the same shape as `before + [rec]`, with `rec` the first record
      of its id, finds that record at the same place with the same keys. */
  lemma AppendedRecordKeys(rows0: seq<TXRecord>, rows': seq<TXRecord>, before: seq<TXRecord>, id: string,
                           init: StatusObject)
    requires |rows0| == |before| + 1 && rows0[..|before|] == before && !HasRecord(before, id)
    requires rows0[|before|].id == id && rows0[|before|].componentTryStatuses == init
    requires SameShape(rows0, rows')
    ensures FindFirst(rows', id) == Some(|before|) && |before| < |rows'|
    ensures KeysOf(rows'[|before|].componentTryStatuses) == KeysOf(init)
  {
    assert FindFirst(rows0, id) == Some(|before|);
    FindFirstOnSameIds(rows0, rows', id);
  }

  /** Entries keyed as a fresh record's are keyed by the members of `ids`. */
  lemma KeyedAsInitial(obj: StatusObject, ids: seq<string>)
    requires KeysOf(obj) == KeysOf(InitialStatuses(ids))
    ensures forall key :: HasKey(obj, key) <==> key in ids
  {
    InitialStatusesShape(ids);
    forall key
      ensures HasKey(obj, key) <==> key in ids
    {
      HasKeyIsKeysOf(InitialStatuses(ids), key);
      HasKeyIsKeysOf(obj, key);
    }
  }

  /** A record found at `k` whose keys are the ids of `es` is keyed by `es`. */
  lemma RecordKeyedBy(rows: seq<TXRecord>, id: string, k: nat, es: seq<ComponentEntity>)
    requires ValidTable(rows) && FindFirst(rows, id) == Some(k) && k < |rows|
    requires forall key :: HasKey(rows[k].componentTryStatuses, key) <==> key in IDs(ComponentsOf(es))
    ensures KeyedBy(rows, id, es, rows[k].componentTryStatuses)
  {
    var obj := rows[k].componentTryStatuses;
    var ids := IDs(ComponentsOf(es));
    EntityIDs(es);
    forall i | 0 <= i < |es|
      ensures HasKey(obj, es[i].component.id)
    {
      assert ids[i] == es[i].component.id;
    }
    forall j | 0 <= j < |obj|
      ensures exists i :: 0 <= i < |es| && es[i].component.id == obj[j].componentID
      ensures StatusAt(rows, id, obj[j].componentID) == Some(obj[j].tryStatus)
    {
      assert HasKey(obj, obj[j].componentID);
      var i :| 0 <= i < |ids| && ids[i] == obj[j].componentID;
      assert es[i].component.id == obj[j].componentID;
      KeyIndexOfDistinct(obj, j);
    }
  }

  /** With every Try acked on a freshly created record, `GetTX` loads it back
      with every entry Successful, also when a name was given more than once. */
  lemma AckedRecordLoads(env: Env, dir: Directory, p: Progress, reqs: seq<RequestEntity>, newId: string, now: int)
    requires Keyed(dir) && ValidTable(p.rows) && Resolve(dir, reqs).Success? && !HasRecord(p.rows, newId)
    requires var es := Resolve(dir, reqs).value;
      forall i :: 0 <= i < |es| ==> TryReply(env, p.calls, newId, es, i) == Returned(true)
    ensures var es := Resolve(dir, reqs).value;
      var created := Progress(p.calls, p.rows + [NewRecord(newId, IDs(ComponentsOf(es)), now)]);
      var rows' := TryPhase(env, created, newId, es).after.rows;
      && LoadTX(rows', newId, now).Success?
      && LoadTX(rows', newId, now).value.txID == newId
      && LoadTX(rows', newId, now).value.createdAt == now
      && AllRegistered(dir, LoadTX(rows', newId, now).value.components)
      && forall j :: 0 <= j < |LoadTX(rows', newId, now).value.components| ==>
           LoadTX(rows', newId, now).value.components[j].tryStatus == TrySucceesful
  {
    var es := Resolve(dir, reqs).value;
    ResolvedRegistered(dir, reqs);
    assert TriesAck(env, p.calls, newId, es);
    AckedTriesLoad(env, dir, p, es, newId, now);
  }

  /** `AckedRecordLoads` for any registered components `es` whose Trys all ack. */
  lemma AckedTriesLoad(env: Env, dir: Directory, p: Progress, es: seq<ComponentEntity>, newId: string, now: int)
    requires ValidTable(p.rows) && !HasRecord(p.rows, newId) && TriesAck(env, p.calls, newId, es)
    requires forall i :: 0 <= i < |es| ==> es[i].component.id in dir
    ensures var created := Progress(p.calls, p.rows + [NewRecord(newId, IDs(ComponentsOf(es)), now)]);
      var rows' := TryPhase(env, created, newId, es).after.rows;
      && LoadTX(rows', newId, now).Success?
      && (var tx := LoadTX(rows', newId, now).value;
          && tx.txID == newId && tx.createdAt == now && AllRegistered(dir, tx.components)
          && forall j :: 0 <= j < |tx.components| ==> tx.components[j].tryStatus == TrySucceesful)
  {
    var created := Progress(p.calls, p.rows + [NewRecord(newId, IDs(ComponentsOf(es)), now)]);
    var rows' := TryPhase(env, created, newId, es).after.rows;
    TriedRecordLoads(env, dir, p, es, newId, now);
    assert SucceededAt(rows', newId, es) by {
      NewRecordIsValid(p.rows, newId, IDs(ComponentsOf(es)), now);
      NewRecordHasEntries(p.rows, newId, es, now);
      AllAckedPhaseSucceeds(env, created, newId, es);
    }
    var tx := LoadTX(rows', newId, now).value;
    EveryKeySucceeded(rows', newId, es, tx.components);
  }

  /** Entries whose keys all belong to components with Successful entries
      are all Successful. */
  lemma EveryKeySucceeded(rows: seq<TXRecord>, txID: string, es: seq<ComponentEntity>, cs: seq<ComponentTryEntity>)
    requires SucceededAt(rows, txID, es) && KeyedBy(rows, txID, es, cs)
    ensures forall j :: 0 <= j < |cs| ==> cs[j].tryStatus == TrySucceesful
  {
    forall j | 0 <= j < |cs|
      ensures cs[j].tryStatus == TrySucceesful
    {
      var i :| 0 <= i < |es| && es[i].component.id == cs[j].componentID;
    }
  }

  /** The happy path: every Try and every Confirm acks, within a non-negative
      timeout, so `transaction` returns true. */
  lemma AckedTransactionCommits(env: Env, dir: Directory, p: Progress, reqs: seq<RequestEntity>,
                                newId: string, now: int, timeout: int)
    requires Keyed(dir) && ValidTable(p.rows) && Resolve(dir, reqs).Success?
    requires !HasRecord(p.rows, newId) && timeout >= 0
    requires var es := Resolve(dir, reqs).value;
      forall i :: 0 <= i < |es| ==> TryReply(env, p.calls, newId, es, i) == Returned(true)
    requires forall calls: seq<Event>, c: ComponentRef :: env(calls, ConfirmCall(c, newId)) == Returned(true)
    ensures Run(env, dir, p, reqs, newId, now, timeout).result == Success(true)
  {
    var es := Resolve(dir, reqs).value;
    var created := Progress(p.calls, p.rows + [NewRecord(newId, IDs(ComponentsOf(es)), now)]);
    var t := TryPhase(env, created, newId, es);
    assert Run(env, dir, p, reqs, newId, now, timeout) == TwoPhase(env, dir, created, newId, es, now, timeout);
    assert t.fulfilled by {
      NewRecordIsValid(p.rows, newId, IDs(ComponentsOf(es)), now);
      NewRecordHasEntries(p.rows, newId, es, now);
      TryPhaseFulfilledIffAllAck(env, created, newId, es);
    }
    AckedRecordLoads(env, dir, p, reqs, newId, now);
    var tx := LoadTX(t.after.rows, newId, now).value;
    assert Advance(env, dir, t.after, tx, now, timeout).result.Success? by {
      assert HasRecord(t.after.rows, newId) by {
        NewRecordIsValid(p.rows, newId, IDs(ComponentsOf(es)), now);
        NewRecordHasEntries(p.rows, newId, es, now);
        TryPhaseKeepsEntries(env, created, newId, es, es);
        GetTXFindsTheRecord(t.after.rows, newId, now);
      }
      AllSucceededSucceeds(tx, now - timeout);
      AdvanceCommits(env, dir, t.after, tx, now, timeout);
    }
  }

  /** A name given twice is tried twice against the one entry it keys. When
      the first Try refuses and the second acks, the entry ends Successful, so
      the record commits and the component gets Confirm, while `transaction`
      returns false. */
  lemma RepeatedNameRefusedYetConfirmed(env: Env, dir: Directory, p: Progress, reqs: seq<RequestEntity>,
                                        newId: string, now: int, timeout: int)
    requires Keyed(dir) && ValidTable(p.rows) && Resolve(dir, reqs).Success?
    requires !HasRecord(p.rows, newId) && timeout >= 0
    requires |reqs| == 2 && reqs[0].componentName == reqs[1].componentName
    requires var es := Resolve(dir, reqs).value;
      TryReply(env, p.calls, newId, es, 0) == Returned(false) && TryReply(env, p.calls, newId, es, 1) == Returned(true)
    requires forall calls: seq<Event>, c: ComponentRef :: env(calls, ConfirmCall(c, newId)) == Returned(true)
    ensures var r := Run(env, dir, p, reqs, newId, now, timeout);
      && r.result == Success(false)
      && ConfirmCall(dir[reqs[0].componentName], newId) in r.after.calls
  {
    var es := Resolve(dir, reqs).value;
    var c := dir[reqs[0].componentName];
    var ids := IDs(ComponentsOf(es));
    var created := Progress(p.calls, p.rows + [NewRecord(newId, ids, now)]);
    var t := TryPhase(env, created, newId, es);
    assert Run(env, dir, p, reqs, newId, now, timeout) == TwoPhase(env, dir, created, newId, es, now, timeout);
    assert es[0].component == c && es[1].component == c && c.id == reqs[0].componentName;
    assert !t.fulfilled && StatusAt(t.after.rows, newId, c.id) == Some(TrySucceesful) by {
      NewRecordIsValid(p.rows, newId, ids, now);
      NewRecordHasEntries(p.rows, newId, es, now);
      RepeatedTryPhase(env, created, newId, es);
    }
    ResolvedRegistered(dir, reqs);
    TriedRecordLoads(env, dir, p, es, newId, now);
    var tx := LoadTX(t.after.rows, newId, now).value;
    SharedKeySucceeded(t.after.rows, newId, es, tx.components);
    assert HasRecord(t.after.rows, newId) by {
      GetTXFindsTheRecord(t.after.rows, newId, now);
    }
    SucceededRecordConfirms(env, dir, t.after, tx, now, timeout, 0);
  }

  /** Entries keyed by one component given twice: a single entry, holding
      that component's status. */
  lemma SharedKeySucceeded(rows: seq<TXRecord>, txID: string, es: seq<ComponentEntity>, cs: seq<ComponentTryEntity>)
    requires KeyedBy(rows, txID, es, cs) && |es| == 2 && es[0].component == es[1].component
    requires StatusAt(rows, txID, es[0].component.id) == Some(TrySucceesful)
    ensures |cs| > 0 && cs[0].componentID == es[0].component.id
    ensures forall j :: 0 <= j < |cs| ==> cs[j].tryStatus == TrySucceesful
  {
    assert HasKey(cs, es[0].component.id);
    forall j | 0 <= j < |cs|
      ensures cs[j].componentID == es[0].component.id && cs[j].tryStatus == TrySucceesful
    {
      var i :| 0 <= i < |es| && es[i].component.id == cs[j].componentID;
    }
  }

  /** The Try phase over one component given twice, refused and then acked:
      the phase is not fulfilled, yet the shared entry ends Successful. */
  lemma RepeatedTryPhase(env: Env, p: Progress, txID: string, es: seq<ComponentEntity>)
    requires ValidTable(p.rows) && HasEntries(p.rows, txID, es)
    requires |es| == 2 && es[0].component == es[1].component
    requires TryReply(env, p.calls, txID, es, 0) == Returned(false) && TryReply(env, p.calls, txID, es, 1) == Returned(true)
    ensures !TryPhase(env, p, txID, es).fulfilled
    ensures StatusAt(TryPhase(env, p, txID, es).after.rows, txID, es[0].component.id) == Some(TrySucceesful)
  {
    TryPhaseFulfilledIffAllAck(env, p, txID, es);
    var s1 := TryPhase(env, p, txID, es[..1]);
    assert TryPhase(env, p, txID, es).after.rows == TryOne(env, s1.after, txID, es[1]).after.rows;
    TryPhaseKeepsEntries(env, p, txID, es[..1], es);
    TryPhaseCallsEveryComponent(env, p, txID, es[..1]);
    TryOneWrites(env, s1.after, txID, es[1], es[1].component.id);
  }

  /** A loaded transaction whose entries all succeeded, within the timeout,
      commits when Confirm acks, and its `k`-th component gets Confirm. */
  lemma SucceededRecordConfirms(env: Env, dir: Directory, p: Progress, tx: Transaction, now: int, timeout: int, k: nat)
    requires Keyed(dir) && ValidTable(p.rows) && HasRecord(p.rows, tx.txID) && AllRegistered(dir, tx.components)
    requires !TimedOut(tx, now - timeout) && k < |tx.components|
    requires forall j :: 0 <= j < |tx.components| ==> tx.components[j].tryStatus == TrySucceesful
    requires forall calls: seq<Event>, c: ComponentRef :: env(calls, ConfirmCall(c, tx.txID)) == Returned(true)
    ensures Advance(env, dir, p, tx, now, timeout).result.Success?
    ensures ConfirmCall(dir[tx.components[k].componentID], tx.txID) in Advance(env, dir, p, tx, now, timeout).after.calls
  {
    AllSucceededSucceeds(tx, now - timeout);
    AdvanceCommits(env, dir, p, tx, now, timeout);
    AdvanceSettles(env, dir, p, tx, now, timeout, now);
    FinalizeEventsHoldEach(dir, tx.txID, true, tx.components, p.calls, k);
  }

  /** The finalize calls appended to `calls` include the one for the `k`-th entry. */
  lemma FinalizeEventsHoldEach(dir: Directory, txID: string, success: bool, cs: seq<ComponentTryEntity>,
                               calls: seq<Event>, k: nat)
    requires AllRegistered(dir, cs) && k < |cs|
    ensures FinalizeEvent(dir[cs[k].componentID], txID, success) in calls + FinalizeEvents(dir, txID, success, cs)
  {
    assert (calls + FinalizeEvents(dir, txID, success, cs))[|calls| + k] == FinalizeEvent(dir[cs[k].componentID], txID, success);
  }

  /* ---------- one firing of the recovery timer: #run ---------- */

  datatype Fired = Fired(after: Progress, outcome: FireOutcome)

  /** The locked phase: finalize every transaction the hanging scan returns. */
  function LockedPass(env: Env, dir: Directory, p: Progress, opts: Options, now: int): Outcome<()> {
    var locked := Progress(p.calls + [LockCall(opts.monitorTick)], p.rows);
    Batch(env, dir, locked, HangingTransactions(p.rows, now), now, opts.timeout)
  }

  /** A firing: take the lock (TTL one monitor tick), run the locked phase,
      release the lock only if the whole pass succeeded. */
  function FireOnce(env: Env, dir: Directory, p: Progress, opts: Options, now: int): Fired {
    var lock := LockCall(opts.monitorTick);
    if env(p.calls, lock).Threw? then Fired(Progress(p.calls + [lock], p.rows), LockRejected)
    else
      var b := LockedPass(env, dir, p, opts, now);
      if b.result.Failure? then Fired(b.after, PassFailed)
      else
        var unlocked := Progress(b.after.calls + [UnlockCall], b.after.rows);
        Fired(unlocked, if env(b.after.calls, UnlockCall).Threw? then PassFailed else PassCompleted)
  }

  predicate FinalizeOnly(evs: seq<Event>) {
    forall i :: 0 <= i < |evs| ==> evs[i].ConfirmCall? || evs[i].CancelCall?
  }

  /** Finalizing one transaction makes only Confirm and Cancel calls. */
  lemma AdvanceCallsOnlyFinalize(env: Env, dir: Directory, p: Progress, tx: Transaction, now: int, timeout: int)
    ensures var a := Advance(env, dir, p, tx, now, timeout);
      |p.calls| <= |a.after.calls| && a.after.calls[..|p.calls|] == p.calls &&
      FinalizeOnly(a.after.calls[|p.calls|..])
  {
    var status := DeriveStatus(tx, now - timeout);
    if status != TXHanging {
      var success := status == TXSuccessful;
      SweepCallsAPrefix(env, dir, p.calls, tx.txID, success, tx.components);
    }
  }

  /** A whole pass makes only Confirm and Cancel calls. */
  lemma {:induction false} BatchCallsOnlyFinalize(env: Env, dir: Directory, p: Progress, txs: seq<Transaction>,
                                                  now: int, timeout: int)
    ensures var b := Batch(env, dir, p, txs, now, timeout);
      |p.calls| <= |b.after.calls| && b.after.calls[..|p.calls|] == p.calls &&
      FinalizeOnly(b.after.calls[|p.calls|..])
    decreases |txs|
  {
    if txs != [] {
      var init := txs[..|txs| - 1];
      BatchCallsOnlyFinalize(env, dir, p, init, now, timeout);
      var b := Batch(env, dir, p, init, now, timeout);
      AdvanceCallsOnlyFinalize(env, dir, b.after, txs[|txs| - 1], now, timeout);
      var c := Batch(env, dir, p, txs, now, timeout).after.calls;
      assert c[|p.calls|..] == b.after.calls[|p.calls|..] + c[|b.after.calls|..];
    }
  }

  /** A firing first asks for the lock; `Unlock` is called only when the lock
      was taken and every transaction of the pass was finalized, and then it
      is the last call; a firing is `LockRejected` exactly when `Lock` threw. */
  lemma UnlockOnlyAfterCleanPass(env: Env, dir: Directory, p: Progress, opts: Options, now: int)
    ensures var f := FireOnce(env, dir, p, opts, now);
      |p.calls| < |f.after.calls| && f.after.calls[..|p.calls|] == p.calls
    ensures var f := FireOnce(env, dir, p, opts, now);
      var added := f.after.calls[|p.calls|..];
      && added[0] == LockCall(opts.monitorTick)
      && (f.outcome == LockRejected <==> env(p.calls, LockCall(opts.monitorTick)).Threw?)
      && (UnlockCall in added <==>
            env(p.calls, LockCall(opts.monitorTick)).Returned? && LockedPass(env, dir, p, opts, now).result.Success?)
      && (UnlockCall in added ==> added[|added| - 1] == UnlockCall)
      && (f.outcome == PassCompleted ==> LockedPass(env, dir, p, opts, now).result.Success?)
  {
    var lock := LockCall(opts.monitorTick);
    var locked := Progress(p.calls + [lock], p.rows);
    var b := LockedPass(env, dir, p, opts, now);
    var f := FireOnce(env, dir, p, opts, now);
    if env(p.calls, lock).Threw? {
      assert f.after.calls == p.calls + [lock] + [] + [];
      LockFrame(p.calls, lock, [], []);
    } else {
      BatchCallsOnlyFinalize(env, dir, locked, HangingTransactions(p.rows, now), now, opts.timeout);
      var mid := b.after.calls[|locked.calls|..];
      assert b.after.calls == locked.calls + mid;
      if b.result.Failure? {
        assert f.after.calls == p.calls + [lock] + mid + [];
        LockFrame(p.calls, lock, mid, []);
      } else {
        assert f.after.calls == p.calls + [lock] + mid + [UnlockCall];
        LockFrame(p.calls, lock, mid, [UnlockCall]);
      }
    }
  }

  /** The calls of a firing: what came before, the lock, Confirms and Cancels,
      then at most an Unlock; an Unlock among the new calls is the last. */
  lemma LockFrame(pre: seq<Event>, lock: Event, mid: seq<Event>, tail: seq<Event>)
    requires lock.LockCall? && FinalizeOnly(mid) && (tail == [] || tail == [UnlockCall])
    ensures var all := pre + [lock] + mid + tail;
      var added := all[|pre|..];
      && |pre| < |all| && all[..|pre|] == pre && added[0] == lock
      && (UnlockCall in added <==> tail == [UnlockCall])
      && (UnlockCall in added ==> added[|added| - 1] == UnlockCall)
  {
    var all := pre + [lock] + mid + tail;
    assert all[..|pre|] == pre;
    assert all[|pre|..] == [lock] + mid + tail;
    assert UnlockCall !in mid;
  }

  /* ---------- the coordinator object ---------- */

  class TXManager {
    const opts: Options
    const env: Env
    const registryCenter: RegistryCenter
    const txStore: MockTXStore
    /** Every call made so far to a component, to `Lock` or to `Unlock`. */
    var calls: seq<Event>
    /** The closure variable `tick` of `#run`. */
    var tick: int
    /** The delay of the timer held in `monitor`. */
    var monitor: int

    ghost predicate Valid()
      reads this, registryCenter, txStore, txStore.dao
    {
      registryCenter.Valid() && txStore.Valid()
    }

    /** Builds the manager and, through `#run`, arms the first timer with tick 0. */
    constructor (timeout: Option<int>, monitorTick: Option<int>, txStore: MockTXStore, env: Env)
      requires txStore.Valid()
      ensures Valid() && fresh(registryCenter) && registryCenter.components == map[]
      ensures opts == ResolveOptions(timeout, monitorTick) && this.txStore == txStore && this.env == env
      ensures calls == [] && tick == 0 && monitor == 0
    {
      this.txStore := txStore;
      this.opts := ResolveOptions(timeout, monitorTick);
      this.registryCenter := new RegistryCenter();
      this.env := env;
      calls := [];
      tick := 0;
      monitor := tick;
    }

    method Register(component: ComponentRef) returns (r: Result<(), Error>)
      requires Valid()
      modifies registryCenter
      ensures Valid()
      ensures component.id in old(registryCenter.components) ==>
        r == Failure(DuplicateComponentID(component.id)) && registryCenter.components == old(registryCenter.components)
      ensures component.id !in old(registryCenter.components) ==>
        r == Success(()) && registryCenter.components == old(registryCenter.components)[component.id := component]
    {
      r := registryCenter.Register(component);
    }

    /** `#getComponents`. */
    method GetComponentEntities(reqs: seq<RequestEntity>) returns (r: Result<seq<ComponentEntity>, Error>)
      requires Valid()
      ensures r == Resolve(registryCenter.components, reqs)
    {
      var idToReq: map<string, RequestEntity> := map[];
      var componentIDs: seq<string> := [];
      for i := 0 to |reqs|
        invariant idToReq == IdToReq(reqs[..i]) && componentIDs == Names(reqs[..i])
      {
        PrefixStep(reqs, i);
        idToReq := idToReq[reqs[i].componentName := reqs[i]];
        componentIDs := componentIDs + [reqs[i].componentName];
      }
      assert reqs[..|reqs|] == reqs;
      var components := registryCenter.GetComponents(componentIDs);
      if components.Failure? {
        return Failure(components.error);
      }
      var cs := components.value;
      // a successful lookup answers every id, so `componentIDs.length !== components.length` cannot hold
      assert |componentIDs| == |cs|;
      ResolveFromLookup(registryCenter.components, reqs);
      r := Success(Pair(cs, idToReq));
    }

    /** `#twoPhaseCommit`: the `Promise.allSettled` fan-out of Trys, taken in order. */
    method TwoPhaseCommit(txID: string, entities: seq<ComponentEntity>, now: int) returns (r: Result<bool, Error>)
      requires Valid()
      modifies this`calls, txStore.dao
      ensures Valid()
      ensures Outcome(Progress(calls, txStore.dao.rows), r) ==
        TwoPhase(env, registryCenter.components, Progress(old(calls), old(txStore.dao.rows)), txID, entities, now, opts.timeout)
    {
      ghost var start := Progress(calls, txStore.dao.rows);
      var successful := true;
      for i := 0 to |entities|
        invariant Valid()
        invariant TryPhase(env, start, txID, entities[..i]) == Settled(Progress(calls, txStore.dao.rows), successful)
      {
        assert entities[..i + 1][..i] == entities[..i];
        var componentEntity := entities[i];
        var id := componentEntity.component.id;
        var ev := TryCall(componentEntity.component, TCCRequest(id, txID, componentEntity.request));
        var resp := env(calls, ev);
        calls := calls + [ev];
        if resp.Threw? {
          successful := false;
        } else {
          var u := txStore.TXUpdate(txID, id, resp.ack);
          if u.Failure? || !resp.ack {
            successful := false;
          }
        }
      }
      assert entities[..|entities|] == entities;
      var a := AdvanceProgressByTXID(txID, now);
      if a.Failure? {
        return Failure(a.error);
      }
      r := Success(successful);
    }

    /** `#advanceProgress`, with `Date.now()` as `now`. */
    method AdvanceProgress(tx: Transaction, now: int) returns (r: Result<(), Error>)
      requires Valid()
      modifies this`calls, txStore.dao
      ensures Valid()
      ensures Outcome(Progress(calls, txStore.dao.rows), r) ==
        Advance(env, registryCenter.components, Progress(old(calls), old(txStore.dao.rows)), tx, now, opts.timeout)
    {
      var txStatus := GetStatus(tx, now - opts.timeout);
      if txStatus == TXHanging {
        return Success(());
      }
      var success := txStatus == TXSuccessful;
      ghost var dir := registryCenter.components;
      ghost var start := calls;
      for i := 0 to |tx.components|
        invariant Valid() && txStore.dao.rows == old(txStore.dao.rows)
        invariant Sweep(env, dir, start, tx.txID, success, tx.components[..i]) == Swept(calls, Success(()))
      {
        SweepStep(env, dir, start, tx.txID, success, tx.components, i);
        ghost var before := calls;
        var res := FinalizeComponent(tx.txID, success, tx.components[i]);
        if res.Failure? {
          AdvanceStopsAt(env, dir, Progress(start, txStore.dao.rows), tx, now, opts.timeout, i, before);
          return res;
        }
      }
      assert tx.components[..|tx.components|] == tx.components;
      assert Sweep(env, dir, start, tx.txID, success, tx.components) == Swept(calls, Success(()));
      r := txStore.TXSubmit(tx.txID, success, now);
    }

    /** One turn of the `#advanceProgress` loop: look the component up, call
        Confirm (or Cancel) on it, and require its ack. */
    method FinalizeComponent(txID: string, success: bool, component: ComponentTryEntity) returns (r: Result<(), Error>)
      requires Valid()
      modifies this`calls
      ensures Swept(calls, r) == SweepOne(env, registryCenter.components, old(calls), txID, success, component)
    {
      var components := registryCenter.GetComponents([component.componentID]);
      if components.Failure? {
        return Failure(components.error);
      }
      // a lookup of one id answers one component, so `components.length === 0` cannot hold
      var target := components.value[0];
      var ev := if success then ConfirmCall(target, txID) else CancelCall(target, txID);
      var resp := env(calls, ev);
      calls := calls + [ev];
      if resp.Threw? {
        return Failure(ComponentCallFailed(component.componentID));
      }
      if !resp.ack {
        return Failure(ComponentAckRejected(component.componentID));
      }
      r := Success(());
    }

    /** `#advanceProgressByTXID`. */
    method AdvanceProgressByTXID(txID: string, now: int) returns (r: Result<(), Error>)
      requires Valid()
      modifies this`calls, txStore.dao
      ensures Valid()
      ensures Outcome(Progress(calls, txStore.dao.rows), r) ==
        AdvanceByTXID(env, registryCenter.components, Progress(old(calls), old(txStore.dao.rows)), txID, now, opts.timeout)
    {
      var tx := txStore.GetTX(txID, now);
      if tx.Failure? {
        return Failure(tx.error);
      }
      r := AdvanceProgress(tx.value, now);
    }

    /** `#batchAdvanceProgress`: every transaction attempted, then the first rejection thrown. */
    method BatchAdvanceProgress(txs: seq<Transaction>, now: int) returns (r: Result<(), Error>)
      requires Valid()
      modifies this`calls, txStore.dao
      ensures Valid()
      ensures Outcome(Progress(calls, txStore.dao.rows), r) ==
        Batch(env, registryCenter.components, Progress(old(calls), old(txStore.dao.rows)), txs, now, opts.timeout)
    {
      ghost var start := Progress(calls, txStore.dao.rows);
      var firstError: Option<Error> := None;
      for i := 0 to |txs|
        invariant Valid()
        invariant Batch(env, registryCenter.components, start, txs[..i], now, opts.timeout) ==
          Outcome(Progress(calls, txStore.dao.rows), if firstError.Some? then Failure(firstError.value) else Success(()))
      {
        assert txs[..i + 1][..i] == txs[..i];
        var res := AdvanceProgress(txs[i], now);
        if res.Failure? && firstError.None? {
          firstError := Some(res.error);
        }
      }
      assert txs[..|txs|] == txs;
      if firstError.Some? {
        return Failure(firstError.value);
      }
      r := Success(());
    }

    /** `transaction(...reqs)`; the new record's id is `newId`. */
    method Transaction(reqs: seq<RequestEntity>, newId: string, now: int) returns (r: Result<bool, Error>)
      requires Valid()
      modifies this`calls, txStore.dao
      ensures Valid()
      ensures Outcome(Progress(calls, txStore.dao.rows), r) ==
        Run(env, registryCenter.components, Progress(old(calls), old(txStore.dao.rows)), reqs, newId, now, opts.timeout)
    {
      var componentEntities := GetComponentEntities(reqs);
      if componentEntities.Failure? {
        return Failure(componentEntities.error);
      }
      var txID := txStore.CreateTX(ComponentsOf(componentEntities.value), newId, now);
      if txID.Failure? {
        return Failure(txID.error);
      }
      r := TwoPhaseCommit(txID.value, componentEntities.value, now);
    }

    /** The callback of the timer `#run` arms: every firing starts from one
        monitor tick, and the next timer is armed with the resulting tick. */
    method Fire(now: int) returns (outcome: FireOutcome)
      requires Valid() && ShiftSafe(opts.monitorTick)
      modifies this, txStore.dao
      ensures Valid()
      ensures Fired(Progress(calls, txStore.dao.rows), outcome) ==
        FireOnce(env, registryCenter.components, Progress(old(calls), old(txStore.dao.rows)), opts, now)
      ensures tick == NextDelay(opts.monitorTick, outcome) && monitor == tick
    {
      tick := opts.monitorTick;
      var lock := LockCall(opts.monitorTick);
      var locked := env(calls, lock);
      calls := calls + [lock];
      if locked.Threw? {
        monitor := tick;
        return LockRejected;
      }
      var txs := txStore.GetHangingTXs(now);
      var res := BatchAdvanceProgress(txs, now);
      if res.Failure? {
        tick := BackOffTick(tick, opts.monitorTick);
        monitor := tick;
        return PassFailed;
      }
      var unlocked := env(calls, UnlockCall);
      calls := calls + [UnlockCall];
      if unlocked.Threw? {
        tick := BackOffTick(tick, opts.monitorTick);
        monitor := tick;
        return PassFailed;
      }
      monitor := tick;
      outcome := PassCompleted;
    }
  }
}
