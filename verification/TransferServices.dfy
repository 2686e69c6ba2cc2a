/** The repository of transfer requests and the services whose tasks move them on, over shared objects. */
module TransferServices {
  import opened Wrappers
  import opened RequestStates
  import opened EnergyTransferRequests
  import opened TransferTasks

  class EnergyTransferRequestRepository {
    var serial: nat
    var db: seq<EnergyTransferRequest>

    ghost predicate Valid()
      reads this
    {
      serial == |db| + 1 && forall i :: 0 <= i < |db| ==> db[i].id == i + 1
    }

    ghost function View(): (requests: seq<Attrs>)
      reads this, db
      ensures |requests| == |db| && forall i :: 0 <= i < |db| ==> requests[i] == db[i].View()
    {
      seq(|db|, i requires 0 <= i < |db| reads this, db => db[i].View())
    }

    constructor ()
      ensures Valid() && View() == []
    {
      serial, db := 1, [];
    }

    method CreateNew(seller: string, buyer: string, volume: int) returns (entity: EnergyTransferRequest)
      requires Valid()
      modifies this
      ensures Valid() && fresh(entity) && db == old(db) + [entity]
      ensures View() == old(View()) + [NewAttributes(seller, buyer, volume)]
    {
      entity := new EnergyTransferRequest(serial, seller, buyer, volume);
      serial := serial + 1;
      db := db + [entity];
      assert View() == old(View()) + [NewAttributes(seller, buyer, volume)];
    }

    method FilterByState(state: State) returns (etrs: seq<EnergyTransferRequest>)
      requires Valid()
      ensures Holds(etrs, InState(View(), state))
    {
      ghost var places := [];
      etrs := [];
      for i := 0 to |db|
        invariant places == InState(View()[..i], state)
        invariant Holds(etrs, places)
      {
        assert View()[..i + 1][..i] == View()[..i];
        if db[i].state == state {
          etrs, places := etrs + [db[i]], places + [i];
        }
      }
      assert View()[..|db|] == View();
    }

    /** The first requests in the given state, in the order in which they are stored. */
    method FindByState(state: State, limit: nat) returns (etrs: seq<EnergyTransferRequest>)
      requires Valid()
      ensures Holds(etrs, TransferTasks.FindByState(View(), state, limit))
      ensures forall k :: 0 <= k < |etrs| ==> etrs[k] in db && etrs[k].state == state
    {
      etrs := FilterByState(state);
      if |etrs| > limit {
        etrs := etrs[..limit];
      }
      Found(View(), state, limit);
      hide InState;
    }

    /** The list holds the requests that are stored at the given places. */
    ghost predicate Holds(etrs: seq<EnergyTransferRequest>, places: seq<nat>)
      reads this
    {
      |places| == |etrs| && forall k :: 0 <= k < |etrs| ==> places[k] < |db| && db[places[k]] == etrs[k]
    }

    /** The callback that a task passes to forEach. */
    method Apply(change: Change, k: nat, etr: EnergyTransferRequest) returns (ok: bool)
      modifies etr
      ensures etr.Became(old(etr.View()), Changed(change, k, old(etr.View())), ok)
    {
      match change
      case BeginIssuance => ok := etr.IssuanceStarted();
      case FinishIssuance(ids) => ok := etr.IssuanceFinished(ids(k));
      case MakePersistent => ok := etr.Persisted();
      case FailIssuance(error) => etr.IssuanceError(error); ok := true;
      case BeginValidation(names) =>
        var list := Listed(names);
        ok := etr.StartValidation(list);
      case BeginTransfer => ok := etr.TransferStarted();
      case FinishTransfer => ok := etr.TransferFinished();
      case FailTransfer(error) => etr.TransferError(error); ok := true;
    }

    /** Changing the request stored at a place changes nothing at the other places. */
    method ApplyAt(change: Change, k: nat, etr: EnergyTransferRequest, ghost place: nat) returns (ok: bool)
      requires Valid() && place < |db| && db[place] == etr
      modifies etr
      ensures Valid()
      ensures var changed := Changed(change, k, old(View())[place]);
              ok == changed.Some? && View() == if ok then old(View())[place := changed.value] else old(View())
    {
      hide Changed;
      OthersUnchanged(place);
      ok := Apply(change, k, etr);
    }

    /** Goes through a batch and stops at the first request that throws. */
    method ForEach(change: Change, etrs: seq<EnergyTransferRequest>, ghost places: seq<nat>) returns (ok: bool)
      requires Valid() && Holds(etrs, places)
      modifies etrs
      ensures Valid()
      ensures (View(), ok) == TransferTasks.ForEach(change, old(View()), places)
    {
      ghost var requests := View();
      assert TransferTasks.ForEach(change, requests, places[..0]) == (requests, true);
      hide Changed, TransferTasks.ForEach, View;
      for k := 0 to |etrs|
        invariant Valid() && View() == TransferTasks.ForEach(change, requests, places[..k]).0
        invariant TransferTasks.ForEach(change, requests, places[..k]).1
      {
        assert places[..k + 1] == places[..k] + [places[k]];
        ForEachStep(change, requests, places[..k], places[k]);
        ok := ApplyAt(change, k, etrs[k], places[k]);
        if !ok {
          StoppedForEach(change, requests, places, k);
          return;
        }
      }
      assert places[..|etrs|] == places;
      ok := true;
    }

    lemma OthersUnchanged(place: nat)
      requires Valid() && place < |db|
      ensures forall i :: 0 <= i < |db| && i != place ==> db[i] != db[place]
    {
    }
  }

  method Listed(names: set<Name>) returns (list: seq<Name>)
    ensures (set name | name in list) == names
  {
    list := [];
    var rest := names;
    while rest != {}
      invariant (set name | name in list) + rest == names
    {
      var name :| name in rest;
      list, rest := list + [name], rest - {name};
    }
  }

  /** Once a request has thrown, the rest of the batch is left alone. */
  lemma {:induction false} StoppedForEach(change: Change, requests: seq<Attrs>, places: seq<nat>, k: nat)
    requires Places(places, requests) && k < |places| && !ForEach(change, requests, places[..k + 1]).1
    ensures ForEach(change, requests, places) == ForEach(change, requests, places[..k + 1])
    decreases |places|
  {
    hide Changed;
    var n := |places| - 1;
    if k < n {
      assert places[..n][..k + 1] == places[..k + 1];
      StoppedForEach(change, requests, places[..n], k);
    } else {
      assert places[..k + 1] == places;
    }
  }

  /** The issue, validate and transfer services; each task is split where it waits for the certificate service. */
  class TransferService {
    const etrRepository: EnergyTransferRequestRepository
    const issueBatchSize: nat
    const validateBatchSize: nat
    const transferBatchSize: nat
    const validators: set<Name>

    constructor (repository: EnergyTransferRequestRepository, issueSize: nat, validateSize: nat, transferSize: nat,
                 validators: set<Name>)
      ensures etrRepository == repository && this.validators == validators
      ensures issueBatchSize == issueSize && validateBatchSize == validateSize && transferBatchSize == transferSize
    {
      etrRepository, this.validators := repository, validators;
      issueBatchSize, validateBatchSize, transferBatchSize := issueSize, validateSize, transferSize;
    }

    method StartIssuing() returns (etrs: seq<EnergyTransferRequest>, ghost places: seq<nat>, ok: bool)
      requires etrRepository.Valid()
      modifies etrRepository.db
      ensures etrRepository.Valid() && etrRepository.Holds(etrs, places)
      ensures places == FindByState(old(etrRepository.View()), IssuanceAwaiting, issueBatchSize)
      ensures (etrRepository.View(), ok) == ForEach(BeginIssuance, old(etrRepository.View()), places)
    {
      etrs := etrRepository.FindByState(IssuanceAwaiting, issueBatchSize);
      places := FindByState(etrRepository.View(), IssuanceAwaiting, issueBatchSize);
      AllStored(etrRepository.db, etrs, places);
      ok := etrRepository.ForEach(BeginIssuance, etrs, places);
    }

    method EndIssuing(etrs: seq<EnergyTransferRequest>, ghost places: seq<nat>, issuance: Result<nat -> int, string>)
      requires etrRepository.Valid() && etrRepository.Holds(etrs, places)
      modifies etrs
      ensures etrRepository.Valid()
      ensures etrRepository.View() == EndIssuance(old(etrRepository.View()), places, issuance)
    {
      match issuance
      case Err(error) =>
        var _ := etrRepository.ForEach(FailIssuance(error), etrs, places);
      case Ok(ids) =>
        var ok := etrRepository.ForEach(FinishIssuance(ids), etrs, places);
        if ok {
          ok := etrRepository.ForEach(MakePersistent, etrs, places);
        }
        if !ok {
          var _ := etrRepository.ForEach(FailIssuance(""), etrs, places);
        }
    }

    method StartValidating() returns (etrs: seq<EnergyTransferRequest>, ghost places: seq<nat>, ok: bool)
      requires etrRepository.Valid()
      modifies etrRepository.db
      ensures etrRepository.Valid() && etrRepository.Holds(etrs, places)
      ensures places == FindByState(old(etrRepository.View()), ValidationAwaiting, validateBatchSize)
      ensures (etrRepository.View(), ok) == ForEach(BeginValidation(validators), old(etrRepository.View()), places)
    {
      etrs := etrRepository.FindByState(ValidationAwaiting, validateBatchSize);
      places := FindByState(etrRepository.View(), ValidationAwaiting, validateBatchSize);
      AllStored(etrRepository.db, etrs, places);
      ok := etrRepository.ForEach(BeginValidation(validators), etrs, places);
    }

    /** The request with the given id is looked up and updated; nothing happens if there is none. */
    method UpdateValidationStatus(requestId: nat, name: Name, status: ValidationStatus)
      returns (code: Option<UpdateStatusCode>)
      requires etrRepository.Valid()
      modifies etrRepository.db
      ensures etrRepository.Valid()
      ensures if 1 <= requestId <= |old(etrRepository.View())|
              then var before := old(etrRepository.View())[requestId - 1];
                   var (a, c) := RequestStates.UpdateValidationStatus(before, name, status);
                   etrRepository.View() == old(etrRepository.View())[requestId - 1 := a] && code == Some(c)
              else etrRepository.View() == old(etrRepository.View()) && code == None
    {
      for i := 0 to |etrRepository.db|
        invariant forall j :: 0 <= j < i ==> etrRepository.db[j].id != requestId
        invariant etrRepository.View() == old(etrRepository.View())
      {
        if etrRepository.db[i].id == requestId {
          etrRepository.OthersUnchanged(i);
          var c := etrRepository.db[i].UpdateValidationStatus(name, status);
          assert etrRepository.View() == old(etrRepository.View())[i := etrRepository.db[i].View()];
          return Some(c);
        }
      }
      return None;
    }

    method StartTransferring() returns (etrs: seq<EnergyTransferRequest>, ghost places: seq<nat>, ok: bool)
      requires etrRepository.Valid()
      modifies etrRepository.db
      ensures etrRepository.Valid() && etrRepository.Holds(etrs, places)
      ensures places == FindByState(old(etrRepository.View()), TransferAwaiting, transferBatchSize)
      ensures (etrRepository.View(), ok) == ForEach(BeginTransfer, old(etrRepository.View()), places)
    {
      etrs := etrRepository.FindByState(TransferAwaiting, transferBatchSize);
      places := FindByState(etrRepository.View(), TransferAwaiting, transferBatchSize);
      AllStored(etrRepository.db, etrs, places);
      ok := etrRepository.ForEach(BeginTransfer, etrs, places);
    }

    method EndTransferring(etrs: seq<EnergyTransferRequest>, ghost places: seq<nat>, error: Option<string>)
      requires etrRepository.Valid() && etrRepository.Holds(etrs, places)
      modifies etrs
      ensures etrRepository.Valid()
      ensures etrRepository.View() == EndTransfer(old(etrRepository.View()), places, error)
    {
      match error
      case Some(message) =>
        var _ := etrRepository.ForEach(FailTransfer(message), etrs, places);
      case None =>
        var ok := etrRepository.ForEach(FinishTransfer, etrs, places);
        if !ok {
          var _ := etrRepository.ForEach(FailTransfer(""), etrs, places);
        }
    }
  }

  lemma AllStored(db: seq<EnergyTransferRequest>, etrs: seq<EnergyTransferRequest>, places: seq<nat>)
    requires |places| == |etrs| && forall k :: 0 <= k < |etrs| ==> places[k] < |db| && db[places[k]] == etrs[k]
    ensures forall etr :: etr in etrs ==> etr in db
  {
  }
}
