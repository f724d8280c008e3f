/** Option and Result, the failure-carrying values used across the model. */
module Wrappers {

  datatype Option<+T> = None | Some(value: T) {
    function GetOr(default: T): T {
      match this
      case Some(v) => v
      case None => default
    }
  }

  datatype Result<+R, +E> = Success(value: R) | Failure(error: E)
}

/** The errors the coordinator, its registry, the reference store and the reference component raise. */
module Errors {

  datatype Error =
    // registry (tccregister.ts)
    | DuplicateComponentID(id: string)
    | UnknownComponentID(id: string)
    // reference store (txstore.ts, dao/txrecord.ts)
    | DuplicateRecordID(txID: string)
    | RecordNotFound(txID: string)
    | NoSuchComponentEntry(txID: string, componentID: string)
    | GetTXFailed(txID: string)
    // coordinator (txmanager.ts)
    | ComponentCallFailed(componentID: string)
    | ComponentAckRejected(componentID: string)
    // reference component (tcccomponent.ts)
    | IllegalStateTransition(txID: string)
}

/** A TCC participant as the coordinator holds it (src/component.ts). */
module Component {

  /** The identifier its `ID()` returns, and which instance it is: two
      instances may report the same identifier. */
  datatype ComponentRef = ComponentRef(id: string, instance: nat)
}
