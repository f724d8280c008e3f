/** Transaction data and the status-derivation rule (src/model.ts). */
module Model {
  import opened Wrappers
  import opened Component

  datatype TXStatus = TXHanging | TXSuccessful | TXFailure

  /** The per-component outcome of the Try phase; the constructor names keep the source's spelling. */
  datatype ComponentTryStatus = TryHanging | TrySucceesful | TryFailure

  type Payload = map<string, string>

  /** A client request: which component, and the payload for its Try. */
  datatype RequestEntity = RequestEntity(componentName: string, request: Payload)

  /** A resolved request: the request entity and the component it goes to. */
  datatype ComponentEntity = ComponentEntity(request: RequestEntity, component: ComponentRef)

  datatype ComponentTryEntity = ComponentTryEntity(componentID: string, tryStatus: ComponentTryStatus)

  /** `createdAt` is a millisecond timestamp. */
  datatype Transaction = Transaction(txID: string, components: seq<ComponentTryEntity>, createdAt: int)

  /** `new Transaction(txID, components?, createdAt?)` at time `now`: the omitted
      arguments take their defaults, the empty list and the construction time. */
  function NewTransaction(txID: string, components: Option<seq<ComponentTryEntity>>,
                          createdAt: Option<int>, now: int): (tx: Transaction)
    ensures tx.txID == txID
    ensures components.None? ==> tx.components == []
    ensures components.Some? ==> tx.components == components.value
    ensures createdAt.None? ==> tx.createdAt == now
    ensures createdAt.Some? ==> tx.createdAt == createdAt.value
  {
    Transaction(txID, components.GetOr([]), createdAt.GetOr(now))
  }

  predicate HasFailure(cs: seq<ComponentTryEntity>) {
    exists i :: 0 <= i < |cs| && cs[i].tryStatus == TryFailure
  }

  /** The one entry that decides between Hanging and Successful once no
      entry failed: the last one. */
  predicate LastNotSucceeded(cs: seq<ComponentTryEntity>) {
    |cs| > 0 && cs[|cs| - 1].tryStatus != TrySucceesful
  }

  predicate TimedOut(tx: Transaction, createdBefore: int) {
    tx.createdAt < createdBefore
  }

  /** What the component entries alone decide. */
  function ComponentsStatus(cs: seq<ComponentTryEntity>): TXStatus {
    if HasFailure(cs) then TXFailure
    else if LastNotSucceeded(cs) then TXHanging
    else TXSuccessful
  }

  /** The status `getStatus(createdBefore)` derives, as the code computes it. */
  function DeriveStatus(tx: Transaction, createdBefore: int): TXStatus {
    if TimedOut(tx, createdBefore) then TXFailure else ComponentsStatus(tx.components)
  }

  /** The rule the comment at src/model.ts:57 states: any component whose
      Try has not succeeded keeps the transaction Hanging. */
  function IntendedStatus(tx: Transaction, createdBefore: int): TXStatus {
    if TimedOut(tx, createdBefore) then TXFailure
    else if HasFailure(tx.components) then TXFailure
    else if exists i :: 0 <= i < |tx.components| && tx.components[i].tryStatus != TrySucceesful then TXHanging
    else TXSuccessful
  }

  /** `Transaction.getStatus`: one pass with early returns and a flag that
      every iteration overwrites. It changes nothing. */
  method GetStatus(tx: Transaction, createdBefore: int) returns (s: TXStatus)
    ensures s == DeriveStatus(tx, createdBefore)
  {
    if tx.createdAt < createdBefore {
      return TXFailure;
    }
    var hangingExist := false;
    for i := 0 to |tx.components|
      invariant forall j :: 0 <= j < i ==> tx.components[j].tryStatus != TryFailure
      invariant hangingExist == (i > 0 && tx.components[i - 1].tryStatus != TrySucceesful)
    {
      if tx.components[i].tryStatus == TryFailure {
        return TXFailure;
      }
      hangingExist := tx.components[i].tryStatus != TrySucceesful;
    }
    if hangingExist {
      return TXHanging;
    }
    return TXSuccessful;
  }

  lemma TimeoutDominates(tx: Transaction, createdBefore: int)
    requires tx.createdAt < createdBefore
    ensures DeriveStatus(tx, createdBefore) == TXFailure
  {
  }

  /** A transaction created exactly at the cutoff is not timed out. */
  lemma TimeoutIsStrict(tx: Transaction)
    ensures DeriveStatus(tx, tx.createdAt) == ComponentsStatus(tx.components)
    ensures DeriveStatus(tx, tx.createdAt) == TXFailure <==> HasFailure(tx.components)
  {
  }

  lemma FailureAnywhereFails(tx: Transaction, createdBefore: int, i: nat)
    requires i < |tx.components| && tx.components[i].tryStatus == TryFailure
    ensures DeriveStatus(tx, createdBefore) == TXFailure
  {
  }

  lemma AllSucceededSucceeds(tx: Transaction, createdBefore: int)
    requires !TimedOut(tx, createdBefore)
    requires forall i :: 0 <= i < |tx.components| ==> tx.components[i].tryStatus == TrySucceesful
    ensures DeriveStatus(tx, createdBefore) == TXSuccessful
  {
  }

  /** Without a failure, only the last entry decides. */
  lemma LastEntryDecides(tx: Transaction, createdBefore: int)
    requires !TimedOut(tx, createdBefore) && !HasFailure(tx.components)
    ensures DeriveStatus(tx, createdBefore) != TXFailure
    ensures DeriveStatus(tx, createdBefore) == TXHanging <==> LastNotSucceeded(tx.components)
  {
  }

  /** [Hanging, Successful] is derived Successful. */
  lemma EarlierHangingEntryIgnored(txID: string, t: int)
    ensures DeriveStatus(Transaction(txID, [ComponentTryEntity("a", TryHanging),
                                            ComponentTryEntity("b", TrySucceesful)], t), t)
            == TXSuccessful
  {
  }

  /** The code departs from the described rule exactly when no entry failed,
      the last entry succeeded and an earlier one is still Hanging; it then
      reports Successful where the rule says Hanging. */
  lemma DeparturesFromIntendedRule(tx: Transaction, createdBefore: int)
    ensures DeriveStatus(tx, createdBefore) != IntendedStatus(tx, createdBefore) <==>
              && !TimedOut(tx, createdBefore)
              && !HasFailure(tx.components)
              && !LastNotSucceeded(tx.components)
              && exists i :: 0 <= i < |tx.components| && tx.components[i].tryStatus == TryHanging
    ensures DeriveStatus(tx, createdBefore) != IntendedStatus(tx, createdBefore) ==>
              DeriveStatus(tx, createdBefore) == TXSuccessful &&
              IntendedStatus(tx, createdBefore) == TXHanging
  {
  }
}
