/** What the issue, validate and transfer tasks do to the stored transfer requests, as a function of them. */
module TransferTasks {
  import opened Sequences
  import opened Wrappers
  import opened RequestStates

  function InState(requests: seq<Attrs>, state: State): seq<nat> {
    if requests == [] then []
    else
      var n := |requests| - 1;
      InState(requests[..n], state) + if requests[n].state == state then [n] else []
  }

  /** The places of the first requests that are in the given state. */
  function FindByState(requests: seq<Attrs>, state: State, limit: nat): seq<nat> {
    var all := InState(requests, state);
    if |all| <= limit then all else all[..limit]
  }

  /** A state change that a task makes to each request of its batch. */
  datatype Change =
    | BeginIssuance
    | FinishIssuance(ids: nat -> int)
    | MakePersistent
    | FailIssuance(error: string)
    | BeginValidation(names: set<Name>)
    | BeginTransfer
    | FinishTransfer
    | FailTransfer(error: string)

  function Changed(change: Change, k: nat, a: Attrs): Option<Attrs> {
    match change
    case BeginIssuance => IssuanceStarted(a)
    case FinishIssuance(ids) => IssuanceFinished(a, ids(k))
    case MakePersistent => MadePersistent(a)
    case FailIssuance(error) => Some(IssuanceFailed(a, error))
    case BeginValidation(names) => StartValidation(a, names)
    case BeginTransfer => TransferStarted(a)
    case FinishTransfer => TransferFinished(a)
    case FailTransfer(error) => Some(TransferFailed(a, error))
  }

  ghost predicate Places(places: seq<nat>, requests: seq<Attrs>) {
    forall k :: 0 <= k < |places| ==> places[k] < |requests|
  }

  /** The change is made to one request after the other, until one of them throws. */
  function ForEach(change: Change, requests: seq<Attrs>, places: seq<nat>): (r: (seq<Attrs>, bool))
    requires Places(places, requests)
    ensures |r.0| == |requests|
  {
    if places == [] then (requests, true)
    else
      var n := |places| - 1;
      var (before, ok) := ForEach(change, requests, places[..n]);
      if !ok then (before, false)
      else
        match Changed(change, n, before[places[n]])
        case None => (before, false)
        case Some(a) => (before[places[n] := a], true)
  }

  /** Once the certificates of a batch are issued; a request in an unexpected state makes the whole batch fail. */
  function EndIssuance(requests: seq<Attrs>, places: seq<nat>, outcome: Result<nat -> int, string>): (r: seq<Attrs>)
    requires Places(places, requests)
    ensures |r| == |requests|
  {
    match outcome
    case Err(error) => ForEach(FailIssuance(error), requests, places).0
    case Ok(ids) =>
      var (finished, ok) := ForEach(FinishIssuance(ids), requests, places);
      var (persisted, allOk) := if ok then ForEach(MakePersistent, finished, places) else (finished, false);
      if allOk then persisted else ForEach(FailIssuance(""), persisted, places).0
  }

  function EndTransfer(requests: seq<Attrs>, places: seq<nat>, outcome: Option<string>): (r: seq<Attrs>)
    requires Places(places, requests)
    ensures |r| == |requests|
  {
    match outcome
    case Some(error) => ForEach(FailTransfer(error), requests, places).0
    case None =>
      var (finished, ok) := ForEach(FinishTransfer, requests, places);
      if ok then finished else ForEach(FailTransfer(""), finished, places).0
  }

  // ----- facts

  /** Different places, and every one holds a request in the given state. */
  ghost predicate AllInState(requests: seq<Attrs>, state: State, places: seq<nat>) {
    && Places(places, requests) && NoDuplicates(places)
    && forall k :: 0 <= k < |places| ==> requests[places[k]].state == state
  }

  lemma {:induction false} InStateFacts(requests: seq<Attrs>, state: State)
    ensures AllInState(requests, state, InState(requests, state))
  {
    if requests != [] {
      InStateFacts(requests[..|requests| - 1], state);
    }
  }

  lemma Found(requests: seq<Attrs>, state: State, limit: nat)
    ensures AllInState(requests, state, FindByState(requests, state, limit))
  {
    InStateFacts(requests, state);
  }

  /** How many of the requests are in the given state. */
  function CountInState(requests: seq<Attrs>, state: State): nat {
    if requests == [] then 0
    else
      var n := |requests| - 1;
      CountInState(requests[..n], state) + if requests[n].state == state then 1 else 0
  }

  lemma {:induction false} InStateRises(requests: seq<Attrs>, state: State)
    ensures var all := InState(requests, state);
            && |all| == CountInState(requests, state)
            && (forall j, k :: 0 <= j < k < |all| ==> all[j] < all[k])
  {
    if requests != [] {
      var n := |requests| - 1;
      InStateRises(requests[..n], state);
      InStateFacts(requests[..n], state);
    }
  }

  /** A request in the state has as many others before it in the list as there are before it in the repository. */
  lemma {:induction false} InStateIsRanked(requests: seq<Attrs>, state: State, p: nat)
    requires p < |requests| && requests[p].state == state
    ensures var rank := CountInState(requests[..p], state);
            rank < |InState(requests, state)| && InState(requests, state)[rank] == p
  {
    var n := |requests| - 1;
    if p < n {
      assert requests[..n][..p] == requests[..p] && requests[..n][p] == requests[p];
      InStateIsRanked(requests[..n], state, p);
    } else {
      InStateRises(requests[..n], state);
    }
  }

  /**
   * A request is found exactly when it is in the given state and fewer requests than the limit are so
   * before it; what is found is listed in the order of the repository.
   */
  lemma FindsExactly(requests: seq<Attrs>, state: State, limit: nat, p: nat)
    ensures p in FindByState(requests, state, limit) <==>
            p < |requests| && requests[p].state == state && CountInState(requests[..p], state) < limit
    ensures var found := FindByState(requests, state, limit);
            forall j, k :: 0 <= j < k < |found| ==> found[j] < found[k]
  {
    var all, found := InState(requests, state), FindByState(requests, state, limit);
    InStateFacts(requests, state);
    InStateRises(requests, state);
    if p < |requests| && requests[p].state == state {
      InStateIsRanked(requests, state, p);
      var rank := CountInState(requests[..p], state);
      hide InState, CountInState, NoDuplicates;
      assert p in found ==> exists j :: 0 <= j < |found| && all[j] == p;
      assert rank < limit ==> found[rank] == p;
    }
  }

  lemma ForEachStep(change: Change, requests: seq<Attrs>, places: seq<nat>, place: nat)
    requires Places(places, requests) && place < |requests| && ForEach(change, requests, places).1
    ensures var before := ForEach(change, requests, places).0;
            var changed := Changed(change, |places|, before[place]);
            ForEach(change, requests, places + [place]) ==
            if changed.Some? then (before[place := changed.value], true) else (before, false)
  {
    hide Changed;
    assert (places + [place])[..|places|] == places;
  }

  /** When nobody throws, each request of the batch has undergone the change once, and no other request has changed. */
  lemma {:induction false} ForEachChangesEach(change: Change, requests: seq<Attrs>, places: seq<nat>)
    requires Places(places, requests) && NoDuplicates(places)
    requires forall k :: 0 <= k < |places| ==> Changed(change, k, requests[places[k]]).Some?
    ensures var r := ForEach(change, requests, places);
            && r.1 && |r.0| == |requests|
            && (forall k :: 0 <= k < |places| ==> r.0[places[k]] == Changed(change, k, requests[places[k]]).value)
            && (forall i :: 0 <= i < |requests| && i !in places ==> r.0[i] == requests[i])
  {
    if places != [] {
      var n := |places| - 1;
      ForEachChangesEach(change, requests, places[..n]);
      assert places == places[..n] + [places[n]];
      assert places[n] !in places[..n];
      ForEachStep(change, requests, places[..n], places[n]);
      hide Changed, ForEach;
      forall k | 0 <= k < n
        ensures ForEach(change, requests, places).0[places[k]] == Changed(change, k, requests[places[k]]).value
      {
        assert places[..n][k] == places[k];
      }
    }
  }
}
