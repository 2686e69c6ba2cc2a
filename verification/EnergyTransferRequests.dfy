/** An energy transfer request as an object that is updated in place. */
module EnergyTransferRequests {
  import opened Wrappers
  import opened RequestStates

  class EnergyTransferRequest {
    const id: nat
    const sellerAddress: string
    const buyerAddress: string
    const volume: int
    var state: State
    var certificateId: Option<int>
    var processError: Option<string>
    var validationStatusRecord: map<Name, ValidationStatus>

    ghost function View(): Attrs
      reads this
    {
      Attrs(sellerAddress, buyerAddress, volume, state, certificateId, processError, validationStatusRecord)
    }

    constructor (id: nat, sellerAddress: string, buyerAddress: string, volume: int)
      ensures View() == NewAttributes(sellerAddress, buyerAddress, volume) && this.id == id
    {
      this.id, this.sellerAddress, this.buyerAddress, this.volume := id, sellerAddress, buyerAddress, volume;
      state := if volume == 0 then Skipped else IssuanceAwaiting;
      certificateId, processError, validationStatusRecord := None, None, map[];
    }

    /** Moves on to the next state; the result is false, for an exception, when the state is another one. */
    method NextState(expectedCurrentState: State, nextState: State) returns (ok: bool)
      modifies `state
      ensures ok == (old(state) == expectedCurrentState)
      ensures state == if ok then nextState else old(state)
    {
      if state != expectedCurrentState {
        return false;
      }
      state := nextState;
      return true;
    }

    method IssuanceStarted() returns (ok: bool)
      modifies this
      ensures Became(old(View()), RequestStates.IssuanceStarted(old(View())), ok)
    {
      ok := NextState(IssuanceAwaiting, IssuanceInProgress);
    }

    /** The object has become what the specification says, or an exception was thrown and it is as it was. */
    ghost predicate Became(before: Attrs, after: Option<Attrs>, ok: bool)
      reads this
    {
      ok == after.Some? && View() == if ok then after.value else before
    }

    method IssuanceError(error: string)
      modifies this
      ensures View() == IssuanceFailed(old(View()), error)
    {
      state := State.IssuanceError;
      processError := Some(error);
    }

    method IssuanceFinished(certificateId: int) returns (ok: bool)
      modifies this
      ensures Became(old(View()), RequestStates.IssuanceFinished(old(View()), certificateId), ok)
    {
      ok := NextState(IssuanceInProgress, Issued);
      if ok {
        this.certificateId := Some(certificateId);
        ok := NextState(Issued, PersistenceAwaiting);
      }
    }

    method Persisted() returns (ok: bool)
      modifies this
      ensures Became(old(View()), MadePersistent(old(View())), ok)
    {
      ok := NextState(PersistenceAwaiting, State.Persisted);
      if ok {
        if buyerAddress == sellerAddress {
          ok := NextState(State.Persisted, ValidationSkipped);
        } else {
          ok := NextState(State.Persisted, ValidationAwaiting);
        }
      }
    }

    method StartValidation(validatorNames: seq<Name>) returns (ok: bool)
      modifies this
      ensures Became(old(View()), RequestStates.StartValidation(old(View()), set name | name in validatorNames), ok)
    {
      ok := NextState(ValidationAwaiting, ValidationInProgress);
      if ok {
        ghost var names := set name | name in validatorNames;
        if |validatorNames| == 0 {
          assert names == {};
          ok := NextState(ValidationInProgress, Validated);
          ok := NextState(Validated, TransferAwaiting);
          return;
        }
        assert validatorNames[0] in names;
        validationStatusRecord := map[];
        for i := 0 to |validatorNames|
          invariant forall name :: name in validationStatusRecord <==> name in validatorNames[..i]
          invariant forall name :: name in validationStatusRecord ==> validationStatusRecord[name] == Pending
          invariant ok && state == ValidationInProgress
          invariant certificateId == old(certificateId) && processError == old(processError)
        {
          validationStatusRecord := validationStatusRecord[validatorNames[i] := Pending];
        }
        assert validationStatusRecord == map name | name in names :: Pending;
      }
    }

    method ValidationError(error: string)
      modifies this
      ensures View() == old(View()).(state := State.ValidationError, processError := Some(error))
    {
      state := State.ValidationError;
      processError := Some(error);
    }

    method UpdateValidationStatus(validatorName: Name, status: ValidationStatus) returns (code: UpdateStatusCode)
      modifies this
      ensures (View(), code) == RequestStates.UpdateValidationStatus(old(View()), validatorName, status)
    {
      if validatorName !in validationStatusRecord {
        return NoValidator;
      }
      if validationStatusRecord[validatorName] != Pending {
        return NotPending;
      }
      validationStatusRecord := validationStatusRecord[validatorName := status];
      if state == ValidationInProgress {
        if AnyIs(validationStatusRecord, Error) {
          var _ := NextState(ValidationInProgress, State.ValidationError);
        } else if AnyIs(validationStatusRecord, Invalid) {
          var _ := NextState(ValidationInProgress, ValidationInvalid);
        } else if AllValid(validationStatusRecord) {
          var _ := NextState(ValidationInProgress, Validated);
          var _ := NextState(Validated, TransferAwaiting);
        }
      }
      return Success;
    }

    method TransferStarted() returns (ok: bool)
      modifies this
      ensures Became(old(View()), RequestStates.TransferStarted(old(View())), ok)
    {
      ok := NextState(TransferAwaiting, TransferInProgress);
    }

    method TransferError(error: string)
      modifies this
      ensures View() == TransferFailed(old(View()), error)
    {
      state := State.TransferError;
      processError := Some(error);
    }

    method TransferFinished() returns (ok: bool)
      modifies this
      ensures Became(old(View()), RequestStates.TransferFinished(old(View())), ok)
    {
      ok := NextState(TransferInProgress, Transferred);
    }
  }
}
