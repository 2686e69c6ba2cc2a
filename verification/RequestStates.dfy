/** The attributes of an energy transfer request and its guarded state changes. */
module RequestStates {
  import opened Wrappers

  datatype ValidationStatus = Pending | Valid | Invalid | Error

  datatype UpdateStatusCode = Success | NoValidator | NotPending

  datatype State =
    | Skipped
    | IssuanceAwaiting | IssuanceInProgress | Issued
    | PersistenceAwaiting | Persisted
    | ValidationAwaiting | ValidationSkipped | ValidationInProgress | Validated
    | TransferInProgress | TransferAwaiting | Transferred
    | IssuanceError | TransferError | ValidationError | ValidationInvalid

  type Name = string

  datatype Attrs = Attrs(
    seller: string,
    buyer: string,
    volume: int,
    state: State,
    certificateId: Option<int>,
    processError: Option<string>,
    validationStatusRecord: map<Name, ValidationStatus>)

  function NewAttributes(seller: string, buyer: string, volume: int): Attrs {
    Attrs(seller, buyer, volume, if volume == 0 then Skipped else IssuanceAwaiting, None, None, map[])
  }

  // A state change that is asked for in the wrong state is an exception, and changes nothing.

  function NextState(a: Attrs, expected: State, next: State): Option<Attrs> {
    if a.state != expected then None else Some(a.(state := next))
  }

  function IssuanceStarted(a: Attrs): Option<Attrs> {
    NextState(a, IssuanceAwaiting, IssuanceInProgress)
  }

  function IssuanceFailed(a: Attrs, error: string): Attrs {
    a.(state := IssuanceError, processError := Some(error))
  }

  function IssuanceFinished(a: Attrs, certificateId: int): Option<Attrs> {
    match NextState(a, IssuanceInProgress, Issued)
    case None => None
    case Some(issued) => NextState(issued.(certificateId := Some(certificateId)), Issued, PersistenceAwaiting)
  }

  function MadePersistent(a: Attrs): Option<Attrs> {
    match NextState(a, PersistenceAwaiting, Persisted)
    case None => None
    case Some(persisted) =>
      NextState(persisted, Persisted, if a.buyer == a.seller then ValidationSkipped else ValidationAwaiting)
  }

  function StartValidation(a: Attrs, names: set<Name>): Option<Attrs> {
    match NextState(a, ValidationAwaiting, ValidationInProgress)
    case None => None
    case Some(started) =>
      if names == {} then Some(started.(state := TransferAwaiting))
      else Some(started.(validationStatusRecord := map name | name in names :: Pending))
  }

  predicate AnyIs(record: map<Name, ValidationStatus>, status: ValidationStatus) {
    exists name :: name in record && record[name] == status
  }

  predicate AllValid(record: map<Name, ValidationStatus>) {
    forall name :: name in record ==> record[name] == Valid
  }

  /** The state of a request whose validation is in progress, once its record has been updated. */
  function Verdict(record: map<Name, ValidationStatus>): State {
    if AnyIs(record, Error) then ValidationError
    else if AnyIs(record, Invalid) then ValidationInvalid
    else if AllValid(record) then TransferAwaiting
    else ValidationInProgress
  }

  function UpdateValidationStatus(a: Attrs, name: Name, status: ValidationStatus): (Attrs, UpdateStatusCode) {
    if name !in a.validationStatusRecord then (a, NoValidator)
    else if a.validationStatusRecord[name] != Pending then (a, NotPending)
    else
      var record := a.validationStatusRecord[name := status];
      (a.(validationStatusRecord := record,
          state := if a.state == ValidationInProgress then Verdict(record) else a.state),
       Success)
  }

  function TransferStarted(a: Attrs): Option<Attrs> {
    NextState(a, TransferAwaiting, TransferInProgress)
  }

  function TransferFailed(a: Attrs, error: string): Attrs {
    a.(state := TransferError, processError := Some(error))
  }

  function TransferFinished(a: Attrs): Option<Attrs> {
    NextState(a, TransferInProgress, Transferred)
  }
}
