/**
 * Every run of the three tasks and of the validators' replies. Each task runs one at a time; between
 * the start of a batch and its end anything else may happen.
 */
module TransferRun {
  import opened Sequences
  import opened Wrappers
  import opened RequestStates
  import opened TransferTasks

  datatype Config = Config(issueSize: nat, validateSize: nat, transferSize: nat, names: set<Name>)

  /** A request's part of a batch that was handed to the certificate service for transfer. */
  datatype Sent = Sent(request: nat, certificateId: Option<int>, from: string, to: string, volume: int)

  datatype Reply = Reply(request: nat, name: Name, status: ValidationStatus)

  /**
   * The stored requests and the batches under way, and a history of the run: the requests handed over
   * for issuance and for transfer, the requests whose validation has started, and the replies that
   * arrived for them from then on.
   */
  datatype System = System(
    requests: seq<Attrs>,
    issuing: Option<seq<nat>>,
    transferring: Option<seq<nat>>,
    issued: seq<nat>,
    sent: seq<Sent>,
    started: set<nat>,
    replies: seq<Reply>,
    thrown: bool)

  const EMPTY_SYSTEM := System([], None, None, [], [], {}, [], false)

  datatype Action =
    | Create(seller: string, buyer: string, volume: int)
    | StartIssuing
    | EndIssuing(issuance: Result<nat -> int, string>)
    | StartValidating
    | Answer(reply: Reply)
    | StartTransferring
    | EndTransferring(error: Option<string>)

  function PlacesSet(places: seq<nat>): set<nat> {
    set k | 0 <= k < |places| :: places[k]
  }

  function SentBatch(requests: seq<Attrs>, places: seq<nat>): (batch: seq<Sent>)
    requires Places(places, requests)
    ensures |batch| == |places|
  {
    seq(|places|, k requires 0 <= k < |places| && Places(places, requests) =>
      var a := requests[places[k]]; Sent(places[k], a.certificateId, a.seller, a.buyer, a.volume))
  }

  ghost predicate Sane(y: System) {
    && (y.issuing.Some? ==> Places(y.issuing.value, y.requests))
    && (y.transferring.Some? ==> Places(y.transferring.value, y.requests))
  }

  ghost function Step(config: Config, y: System, action: Action): System
    requires Sane(y)
  {
    match action
    case Create(seller, buyer, volume) => y.(requests := y.requests + [NewAttributes(seller, buyer, volume)])
    case StartIssuing =>
      if y.issuing.Some? then y
      else
        var places := FindByState(y.requests, IssuanceAwaiting, config.issueSize);
        Found(y.requests, IssuanceAwaiting, config.issueSize);
        var (requests, ok) := ForEach(BeginIssuance, y.requests, places);
        y.(requests := requests, issuing := Some(places), issued := y.issued + places, thrown := y.thrown || !ok)
    case EndIssuing(issuance) =>
      if y.issuing.None? then y
      else y.(requests := EndIssuance(y.requests, y.issuing.value, issuance), issuing := None)
    case StartValidating =>
      var places := FindByState(y.requests, ValidationAwaiting, config.validateSize);
      Found(y.requests, ValidationAwaiting, config.validateSize);
      var (requests, ok) := ForEach(BeginValidation(config.names), y.requests, places);
      y.(requests := requests, started := y.started + PlacesSet(places), thrown := y.thrown || !ok)
    case Answer(reply) =>
      if reply.request >= |y.requests| then y
      else
        var a := UpdateValidationStatus(y.requests[reply.request], reply.name, reply.status).0;
        y.(requests := y.requests[reply.request := a],
           replies := if reply.request in y.started then y.replies + [reply] else y.replies)
    case StartTransferring =>
      if y.transferring.Some? then y
      else
        var places := FindByState(y.requests, TransferAwaiting, config.transferSize);
        Found(y.requests, TransferAwaiting, config.transferSize);
        var (requests, ok) := ForEach(BeginTransfer, y.requests, places);
        y.(requests := requests, transferring := Some(places), sent := y.sent + SentBatch(requests, places),
           thrown := y.thrown || !ok)
    case EndTransferring(error) =>
      if y.transferring.None? then y
      else y.(requests := EndTransfer(y.requests, y.transferring.value, error), transferring := None)
  }

  lemma StepIsSane(config: Config, y: System, action: Action)
    requires Sane(y)
    ensures Sane(Step(config, y, action)) && |y.requests| <= |Step(config, y, action).requests|
  {
    Found(y.requests, IssuanceAwaiting, config.issueSize);
    Found(y.requests, TransferAwaiting, config.transferSize);
  }

  /** Any run from an empty repository. */
  ghost function After(config: Config, actions: seq<Action>): (y: System)
    ensures Sane(y)
  {
    if actions == [] then EMPTY_SYSTEM
    else
      var before := After(config, actions[..|actions| - 1]);
      StepIsSane(config, before, actions[|actions| - 1]);
      Step(config, before, actions[|actions| - 1])
  }

  // ----- what a validator has decided

  /** The first status other than pending that a validator replied for a request; pending if there is none yet. */
  function Decision(replies: seq<Reply>, request: nat, name: Name): ValidationStatus {
    if replies == [] then Pending
    else
      var n := |replies| - 1;
      var before := Decision(replies[..n], request, name);
      if before == Pending && replies[n].request == request && replies[n].name == name then replies[n].status
      else before
  }

  ghost predicate Decides(r: Reply, request: nat, name: Name) {
    r.request == request && r.name == name && r.status != Pending
  }

  /** A decision is the status of the first reply that decides. */
  lemma {:induction false} DecisionIsFirst(replies: seq<Reply>, request: nat, name: Name)
    ensures Decision(replies, request, name) == Pending <==>
            forall k :: 0 <= k < |replies| ==> !Decides(replies[k], request, name)
    ensures forall k :: 0 <= k < |replies| && Decides(replies[k], request, name)
              && (forall j :: 0 <= j < k ==> !Decides(replies[j], request, name))
              ==> Decision(replies, request, name) == replies[k].status
  {
    if replies != [] {
      var n := |replies| - 1;
      DecisionIsFirst(replies[..n], request, name);
      assert forall k :: 0 <= k < n ==> replies[..n][k] == replies[k];
    }
  }

  lemma DecisionStep(replies: seq<Reply>, r: Reply, request: nat, name: Name)
    ensures Decision(replies + [r], request, name) ==
            if Decision(replies, request, name) == Pending && r.request == request && r.name == name then r.status
            else Decision(replies, request, name)
  {
    assert (replies + [r])[..|replies|] == replies;
  }

  // ----- the invariant

  predicate Certified(s: State) {
    s.ValidationAwaiting? || s.ValidationSkipped? || Started(s)
  }

  /** Validation has started. */
  predicate Started(s: State) {
    s.ValidationInProgress? || s.ValidationError? || s.ValidationInvalid? || Passed(s)
  }

  /** Validation is over, and the request may go on to its transfer. */
  predicate Passed(s: State) {
    s.TransferAwaiting? || HandedOver(s)
  }

  predicate HandedOver(s: State) {
    s.TransferInProgress? || s.Transferred? || s.TransferError?
  }

  predicate SubmittedForIssue(s: State) {
    s.IssuanceInProgress? || s.IssuanceError? || Certified(s)
  }

  /** States that a request is in between the steps of a run. */
  predicate Stable(s: State) {
    s.Skipped? || s.IssuanceAwaiting? || SubmittedForIssue(s)
  }

  ghost predicate Consistent(a: Attrs) {
    && Stable(a.state)
    && (a.volume == 0 <==> a.state == Skipped)
    && (a.certificateId.Some? <==> Certified(a.state))
    && (a.state == ValidationSkipped ==> a.buyer == a.seller)
    && (a.state == ValidationAwaiting || Started(a.state) ==> a.buyer != a.seller)
    && (!Started(a.state) ==> a.validationStatusRecord == map[])
    && (Started(a.state) ==> Judged(a))
  }

  ghost predicate Judged(a: Attrs) {
    && (Passed(a.state) <==> AllValid(a.validationStatusRecord))
    && (a.state == ValidationError || a.state == ValidationInvalid <==>
        AnyIs(a.validationStatusRecord, Error) || AnyIs(a.validationStatusRecord, Invalid))
  }

  /** The record of a request whose validation has started holds what its validators have decided. */
  ghost predicate Records(config: Config, replies: seq<Reply>, i: nat, a: Attrs) {
    && a.validationStatusRecord.Keys == config.names
    && forall name :: name in config.names ==> a.validationStatusRecord[name] == Decision(replies, i, name)
  }

  function RequestsOf(sent: seq<Sent>): (places: seq<nat>)
    ensures |places| == |sent|
  {
    seq(|sent|, k requires 0 <= k < |sent| => sent[k].request)
  }

  ghost predicate Traced(config: Config, y: System, i: nat)
    requires i < |y.requests|
  {
    var a := y.requests[i];
    && Consistent(a)
    && multiset(y.issued)[i] == (if SubmittedForIssue(a.state) then 1 else 0)
    && (a.state == IssuanceInProgress <==> y.issuing.Some? && i in y.issuing.value)
    && (i in y.started <==> Started(a.state))
    && (i in y.started ==> Records(config, y.replies, i, a))
    && multiset(RequestsOf(y.sent))[i] == (if HandedOver(a.state) then 1 else 0)
    && (a.state == TransferInProgress <==> y.transferring.Some? && i in y.transferring.value)
  }

  /** What was sent is what the request says. */
  ghost predicate SentAsStored(y: System, k: nat)
    requires k < |y.sent|
  {
    var t := y.sent[k];
    t.request < |y.requests| &&
    (var a := y.requests[t.request];
     HandedOver(a.state) && t == Sent(t.request, a.certificateId, a.seller, a.buyer, a.volume))
  }

  ghost predicate Inv(config: Config, y: System) {
    && !y.thrown && Sane(y)
    && (forall i: nat :: i < |y.requests| ==> Traced(config, y, i))
    && (forall k: nat :: k < |y.sent| ==> SentAsStored(y, k))
    && (forall i: nat :: i in y.started || i in y.issued ==> i < |y.requests|)
    && (forall k :: 0 <= k < |y.replies| ==> y.replies[k].request in y.started)
    && (y.issuing.Some? ==> NoDuplicates(y.issuing.value))
    && (y.transferring.Some? ==> NoDuplicates(y.transferring.value))
  }

  // ----- counting

  lemma SentPlaces(sent: seq<Sent>, requests: seq<Attrs>, places: seq<nat>)
    requires Places(places, requests)
    ensures RequestsOf(sent + SentBatch(requests, places)) == RequestsOf(sent) + places
  {
  }

  // ----- every action keeps the invariant

  lemma CreateKeepsInv(config: Config, y: System, seller: string, buyer: string, volume: int)
    requires Inv(config, y)
    ensures Inv(config, Step(config, y, Create(seller, buyer, volume)))
  {
    hide Consistent;
    var y' := Step(config, y, Create(seller, buyer, volume));
    var n := |y.requests|;
    forall i: nat | i < |y'.requests| ensures Traced(config, y', i) {
      if i == n {
        NobodyKnows(config, y, n);
        assert Consistent(y'.requests[n]) by { NewIsConsistent(seller, buyer, volume); }
      } else {
        assert Traced(config, y, i);
      }
    }
    forall k: nat | k < |y'.sent| ensures SentAsStored(y', k) {
      assert SentAsStored(y, k);
    }
  }

  lemma NewIsConsistent(seller: string, buyer: string, volume: int)
    ensures Consistent(NewAttributes(seller, buyer, volume))
  {
  }

  /** The run knows nothing of a request that has not been created. */
  lemma NobodyKnows(config: Config, y: System, n: nat)
    requires Inv(config, y) && n >= |y.requests|
    ensures multiset(y.issued)[n] == 0 && multiset(RequestsOf(y.sent))[n] == 0 && n !in y.started
    ensures y.issuing.Some? ==> n !in y.issuing.value
    ensures y.transferring.Some? ==> n !in y.transferring.value
  {
    hide Traced;
    assert n !in y.issued;
    forall k | 0 <= k < |RequestsOf(y.sent)| ensures RequestsOf(y.sent)[k] != n {
      assert SentAsStored(y, k);
    }
    assert n !in RequestsOf(y.sent);
  }

  /** The start of a batch changes the state of its requests and nothing else. */
  lemma BatchBegins(change: Change, requests: seq<Attrs>, from: State, next: State, places: seq<nat>)
    requires || (change == BeginIssuance && from == IssuanceAwaiting && next == IssuanceInProgress)
             || (change == BeginTransfer && from == TransferAwaiting && next == TransferInProgress)
    requires AllInState(requests, from, places)
    ensures var r := ForEach(change, requests, places);
            && r.1 && |r.0| == |requests|
            && forall i :: 0 <= i < |requests| ==>
               r.0[i] == if i in places then requests[i].(state := next) else requests[i]
  {
    ForEachChangesEach(change, requests, places);
    var r := ForEach(change, requests, places);
    hide ForEach, NoDuplicates;
    forall i | 0 <= i < |requests| ensures r.0[i] == if i in places then requests[i].(state := next) else requests[i] {
      if i in places {
        var k :| 0 <= k < |places| && places[k] == i;
      }
    }
  }

  lemma InPlaces(requests: seq<Attrs>, from: State, places: seq<nat>, i: nat)
    requires AllInState(requests, from, places) && i in places
    ensures i < |requests| && requests[i].state == from
  {
  }

  lemma IssuingTraced(config: Config, y: System, y': System, places: seq<nat>, i: nat)
    requires Inv(config, y) && y.issuing.None? && i < |y.requests| == |y'.requests|
    requires AllInState(y.requests, IssuanceAwaiting, places)
    requires y'.requests[i] == if i in places then y.requests[i].(state := IssuanceInProgress) else y.requests[i]
    requires y' == y.(requests := y'.requests, issuing := Some(places), issued := y.issued + places)
    ensures Traced(config, y', i)
  {
    hide Consistent, Records, SentAsStored, Sane, AllInState;
    assert Traced(config, y, i);
    AreDistinct(y.requests, IssuanceAwaiting, places);
    CountOfDistinct(places, i);
    assert multiset(y'.issued) == multiset(y.issued) + multiset(places);
    if i in places {
      InPlaces(y.requests, IssuanceAwaiting, places, i);
      MovesOn(y.requests[i], IssuanceInProgress);
    }
  }

  lemma AreDistinct(requests: seq<Attrs>, from: State, places: seq<nat>)
    requires AllInState(requests, from, places)
    ensures NoDuplicates(places) && Places(places, requests) && forall i :: i in places ==> i < |requests|
  {
  }

  lemma StartIssuingKeepsInv(config: Config, y: System)
    requires Inv(config, y) && y.issuing.None?
    ensures Inv(config, Step(config, y, StartIssuing))
  {
    var places := FindByState(y.requests, IssuanceAwaiting, config.issueSize);
    Found(y.requests, IssuanceAwaiting, config.issueSize);
    AreDistinct(y.requests, IssuanceAwaiting, places);
    BatchBegins(BeginIssuance, y.requests, IssuanceAwaiting, IssuanceInProgress, places);
    var y' := Step(config, y, StartIssuing);
    StepIsSane(config, y, StartIssuing);
    hide ForEach, FindByState, NoDuplicates, SentAsStored, Sane, Traced, AllInState;
    forall i: nat | i < |y'.requests| ensures Traced(config, y', i) {
      IssuingTraced(config, y, y', places, i);
    }
    forall i: nat | i < |y.requests| && HandedOver(y.requests[i].state) ensures y'.requests[i] == y.requests[i] {
      if i in places { InPlaces(y.requests, IssuanceAwaiting, places, i); }
    }
    SentStay(config, y, y');
  }

  /** The state changes that the start and the end of a batch make to a request. */
  lemma MovesOn(a: Attrs, next: State)
    requires Consistent(a)
    requires || (a.state == IssuanceAwaiting && next == IssuanceInProgress)
             || (a.state == TransferAwaiting && next == TransferInProgress)
             || (a.state == TransferInProgress && (next == Transferred || next == TransferError))
    ensures Consistent(a.(state := next)) && forall error :: Consistent(a.(state := next, processError := error))
  {
  }

  lemma IssuanceEnds(a: Attrs, k: nat, issuance: Result<nat -> int, string>)
    requires Consistent(a) && a.state == IssuanceInProgress
    ensures var b := IssuanceOutcome(a, k, issuance);
            Consistent(b) && !Started(b.state) && SubmittedForIssue(b.state) && b.state != IssuanceInProgress
  {
  }

  /** What was sent stays as stored while no request that was handed over changes its attributes. */
  lemma SentStay(config: Config, y: System, y': System)
    requires forall k: nat :: k < |y.sent| ==> SentAsStored(y, k)
    requires y'.sent == y.sent && |y.requests| <= |y'.requests|
    requires forall i: nat :: i < |y.requests| && HandedOver(y.requests[i].state) ==>
               && HandedOver(y'.requests[i].state)
               && y'.requests[i].(state := y.requests[i].state, processError := y.requests[i].processError,
                                  validationStatusRecord := y.requests[i].validationStatusRecord) == y.requests[i]
    ensures forall k: nat :: k < |y'.sent| ==> SentAsStored(y', k)
  {
    forall k: nat | k < |y'.sent| ensures SentAsStored(y', k) {
      assert SentAsStored(y, k);
    }
  }

  /** What becomes of the k-th request of a batch when its issuance ends. */
  function IssuanceOutcome(a: Attrs, k: nat, issuance: Result<nat -> int, string>): Attrs {
    match issuance
    case Err(error) => IssuanceFailed(a, error)
    case Ok(ids) =>
      a.(certificateId := Some(ids(k)), state := if a.buyer == a.seller then ValidationSkipped else ValidationAwaiting)
  }

  lemma EndIssuanceChangesEach(requests: seq<Attrs>, places: seq<nat>, issuance: Result<nat -> int, string>)
    requires AllInState(requests, IssuanceInProgress, places)
    ensures var r := EndIssuance(requests, places, issuance);
            && (forall k :: 0 <= k < |places| ==> r[places[k]] == IssuanceOutcome(requests[places[k]], k, issuance))
            && (forall i :: 0 <= i < |requests| && i !in places ==> r[i] == requests[i])
  {
    match issuance
    case Err(error) => ForEachChangesEach(FailIssuance(error), requests, places);
    case Ok(ids) =>
      ForEachChangesEach(FinishIssuance(ids), requests, places);
      ForEachChangesEach(MakePersistent, ForEach(FinishIssuance(ids), requests, places).0, places);
  }

  lemma EndIssuingKeepsInv(config: Config, y: System, issuance: Result<nat -> int, string>)
    requires Inv(config, y) && y.issuing.Some?
    ensures Inv(config, Step(config, y, EndIssuing(issuance)))
  {
    var places := y.issuing.value;
    var y' := Step(config, y, EndIssuing(issuance));
    forall k | 0 <= k < |places| ensures y.requests[places[k]].state == IssuanceInProgress {
      assert Traced(config, y, places[k]) && places[k] in places;
    }
    EndIssuanceChangesEach(y.requests, places, issuance);
    hide EndIssuance, IssuanceOutcome, NoDuplicates, SentAsStored, Consistent, Records, Sane;
    forall i: nat | i < |y'.requests| ensures Traced(config, y', i) {
      assert Traced(config, y, i);
      if i in places {
        var k :| 0 <= k < |places| && places[k] == i;
        IssuanceEnds(y.requests[i], k, issuance);
      }
    }
    SentStay(config, y, y');
    assert Sane(y') by { StepIsSane(config, y, EndIssuing(issuance)); }
  }

  lemma NothingDecided(config: Config, y: System, i: nat, name: Name)
    requires Inv(config, y) && i !in y.started
    ensures Decision(y.replies, i, name) == Pending
  {
    hide Traced, Sane;
    DecisionIsFirst(y.replies, i, name);
  }

  lemma ValidationBatchBegins(names: set<Name>, requests: seq<Attrs>, places: seq<nat>)
    requires AllInState(requests, ValidationAwaiting, places)
    ensures var r := ForEach(BeginValidation(names), requests, places);
            && r.1 && |r.0| == |requests|
            && (forall i :: 0 <= i < |requests| && i in places ==> StartValidation(requests[i], names) == Some(r.0[i]))
            && (forall i :: 0 <= i < |requests| && i !in places ==> r.0[i] == requests[i])
  {
    ForEachChangesEach(BeginValidation(names), requests, places);
    var r := ForEach(BeginValidation(names), requests, places);
    hide ForEach, NoDuplicates;
    forall i | 0 <= i < |requests| && i in places ensures StartValidation(requests[i], names) == Some(r.0[i]) {
      var k :| 0 <= k < |places| && places[k] == i;
    }
  }

  lemma ValidatingTraced(config: Config, y: System, y': System, places: seq<nat>, i: nat)
    requires Inv(config, y) && i < |y.requests| == |y'.requests|
    requires AllInState(y.requests, ValidationAwaiting, places)
    requires if i in places then StartValidation(y.requests[i], config.names) == Some(y'.requests[i])
             else y'.requests[i] == y.requests[i]
    requires y' == y.(requests := y'.requests, started := y.started + PlacesSet(places))
    ensures Traced(config, y', i)
  {
    hide Consistent, SentAsStored, Sane, AllInState, StartValidation;
    assert Traced(config, y, i);
    assert i in y'.started <==> i in y.started || i in places;
    if i in places {
      InPlaces(y.requests, ValidationAwaiting, places, i);
      forall name ensures Decision(y.replies, i, name) == Pending { NothingDecided(config, y, i, name); }
      ValidationBegins(config.names, y.requests[i]);
    }
  }

  lemma StartValidatingKeepsInv(config: Config, y: System)
    requires Inv(config, y)
    ensures Inv(config, Step(config, y, StartValidating))
  {
    var places := FindByState(y.requests, ValidationAwaiting, config.validateSize);
    Found(y.requests, ValidationAwaiting, config.validateSize);
    AreDistinct(y.requests, ValidationAwaiting, places);
    ValidationBatchBegins(config.names, y.requests, places);
    var y' := Step(config, y, StartValidating);
    StepIsSane(config, y, StartValidating);
    hide ForEach, FindByState, NoDuplicates, SentAsStored, Sane, Traced, AllInState, StartValidation;
    forall i: nat | i < |y'.requests| ensures Traced(config, y', i) {
      ValidatingTraced(config, y, y', places, i);
    }
    forall i: nat | i < |y.requests| && HandedOver(y.requests[i].state) ensures y'.requests[i] == y.requests[i] {
      if i in places { InPlaces(y.requests, ValidationAwaiting, places, i); }
    }
    SentStay(config, y, y');
  }

  lemma ValidationBegins(names: set<Name>, a: Attrs)
    requires Consistent(a) && a.state == ValidationAwaiting
    ensures var b := StartValidation(a, names);
            && b.Some? && Consistent(b.value) && Started(b.value.state) && !HandedOver(b.value.state)
            && b.value.(state := a.state, validationStatusRecord := a.validationStatusRecord) == a
            && b.value.validationStatusRecord.Keys == names
            && forall name :: name in names ==> b.value.validationStatusRecord[name] == Pending
  {
    var b := StartValidation(a, names).value;
    if names != {} {
      var name :| name in names;
      assert name in b.validationStatusRecord;
    }
  }

  /** A reply leaves the request with a verdict on what has been decided so far. */
  lemma ReplyIsJudged(a: Attrs, name: Name, status: ValidationStatus)
    requires Consistent(a)
    ensures var b := UpdateValidationStatus(a, name, status).0;
            && Consistent(b) && (Started(b.state) <==> Started(a.state))
            && (HandedOver(b.state) <==> HandedOver(a.state))
            && (SubmittedForIssue(b.state) <==> SubmittedForIssue(a.state))
            && (b.state == IssuanceInProgress <==> a.state == IssuanceInProgress)
            && (b.state == TransferInProgress <==> a.state == TransferInProgress)
            && b.(state := a.state, validationStatusRecord := a.validationStatusRecord) == a
  {
    var record, b := a.validationStatusRecord, UpdateValidationStatus(a, name, status).0;
    if name in record && record[name] == Pending {
      var record' := b.validationStatusRecord;
      assert forall other :: other in record && other != name ==> record'[other] == record[other];
      assert record'[name] == status;
      assert !AllValid(record);
      assert forall bad :: bad != Pending && AnyIs(record, bad) ==> AnyIs(record', bad) by {
        forall bad | bad != Pending && AnyIs(record, bad) ensures AnyIs(record', bad) {
          var other :| other in record && record[other] == bad;
          assert record'[other] == bad;
        }
      }
    }
  }

  lemma ReplyIsRecorded(config: Config, replies: seq<Reply>, i: nat, a: Attrs, r: Reply)
    requires Records(config, replies, i, a)
    ensures Records(config, replies + [r], i,
                    if r.request == i then UpdateValidationStatus(a, r.name, r.status).0 else a)
  {
    forall name | name in config.names
      ensures Decision(replies + [r], i, name) ==
              (if r.request == i then UpdateValidationStatus(a, r.name, r.status).0 else a).validationStatusRecord[name]
    {
      DecisionStep(replies, r, i, name);
    }
  }

  lemma AnswerKeepsInv(config: Config, y: System, r: Reply)
    requires Inv(config, y)
    ensures Inv(config, Step(config, y, Answer(r)))
  {
    if r.request < |y.requests| {
      var y' := Step(config, y, Answer(r));
      assert Traced(config, y, r.request);
      ReplyIsJudged(y.requests[r.request], r.name, r.status);
      hide Consistent, UpdateValidationStatus, SentAsStored, Sane, Records;
      forall i: nat | i < |y'.requests| ensures Traced(config, y', i) {
        assert Traced(config, y, i);
        if i in y.started && r.request in y.started {
          ReplyIsRecorded(config, y.replies, i, y.requests[i], r);
        }
      }
      SentStay(config, y, y');
      assert Sane(y') by { StepIsSane(config, y, Answer(r)); }
    }
  }

  lemma TransferringTraced(config: Config, y: System, y': System, places: seq<nat>, i: nat)
    requires Inv(config, y) && y.transferring.None? && i < |y.requests| == |y'.requests|
    requires AllInState(y.requests, TransferAwaiting, places)
    requires y'.requests[i] == if i in places then y.requests[i].(state := TransferInProgress) else y.requests[i]
    requires y' == y.(requests := y'.requests, transferring := Some(places), sent := y'.sent)
    requires RequestsOf(y'.sent) == RequestsOf(y.sent) + places
    ensures Traced(config, y', i)
  {
    hide Consistent, Records, SentAsStored, Sane, AllInState, RequestsOf;
    assert Traced(config, y, i);
    AreDistinct(y.requests, TransferAwaiting, places);
    CountOfDistinct(places, i);
    assert multiset(RequestsOf(y.sent) + places) == multiset(RequestsOf(y.sent)) + multiset(places);
    if i in places {
      InPlaces(y.requests, TransferAwaiting, places, i);
      MovesOn(y.requests[i], TransferInProgress);
      SameRecords(config, y.replies, i, y.requests[i], y'.requests[i]);
    }
  }

  lemma StartTransferringKeepsInv(config: Config, y: System)
    requires Inv(config, y) && y.transferring.None?
    ensures Inv(config, Step(config, y, StartTransferring))
  {
    var places := FindByState(y.requests, TransferAwaiting, config.transferSize);
    Found(y.requests, TransferAwaiting, config.transferSize);
    AreDistinct(y.requests, TransferAwaiting, places);
    BatchBegins(BeginTransfer, y.requests, TransferAwaiting, TransferInProgress, places);
    var y' := Step(config, y, StartTransferring);
    StepIsSane(config, y, StartTransferring);
    SentPlaces(y.sent, y'.requests, places);
    hide ForEach, FindByState, NoDuplicates, SentBatch, SentAsStored, Sane, Traced, AllInState;
    forall i: nat | i < |y'.requests| ensures Traced(config, y', i) {
      TransferringTraced(config, y, y', places, i);
    }
    forall i: nat | i < |y.requests| && HandedOver(y.requests[i].state) ensures y'.requests[i] == y.requests[i] {
      if i in places { InPlaces(y.requests, TransferAwaiting, places, i); }
    }
    forall k: nat | k < |y'.sent| ensures SentAsStored(y', k) {
      NewlySent(config, y, y', places, k);
    }
  }

  lemma NewlySent(config: Config, y: System, y': System, places: seq<nat>, k: nat)
    requires Places(places, y'.requests) && y'.sent == y.sent + SentBatch(y'.requests, places) && k < |y'.sent|
    requires |y'.requests| == |y.requests|
    requires forall j: nat :: j < |y.sent| ==> SentAsStored(y, j)
    requires forall j :: 0 <= j < |places| ==> y'.requests[places[j]].state == TransferInProgress
    requires forall i: nat :: i < |y.requests| && HandedOver(y.requests[i].state) ==> y'.requests[i] == y.requests[i]
    ensures SentAsStored(y', k)
  {
    if k < |y.sent| {
      assert SentAsStored(y, k);
    }
  }

  lemma EndTransferChangesEach(requests: seq<Attrs>, places: seq<nat>, error: Option<string>)
    requires AllInState(requests, TransferInProgress, places)
    ensures var r := EndTransfer(requests, places, error);
            && (forall k :: 0 <= k < |places| ==> r[places[k]] == TransferOutcome(requests[places[k]], error))
            && (forall i :: 0 <= i < |requests| && i !in places ==> r[i] == requests[i])
  {
    match error
    case Some(message) => ForEachChangesEach(FailTransfer(message), requests, places);
    case None => ForEachChangesEach(FinishTransfer, requests, places);
  }

  lemma TransferBatchEnds(requests: seq<Attrs>, places: seq<nat>, error: Option<string>)
    requires AllInState(requests, TransferInProgress, places)
    ensures var r := EndTransfer(requests, places, error);
            forall i :: 0 <= i < |requests| ==>
              r[i] == if i in places then TransferOutcome(requests[i], error) else requests[i]
  {
    EndTransferChangesEach(requests, places, error);
    var r := EndTransfer(requests, places, error);
    hide EndTransfer, NoDuplicates;
    forall i | 0 <= i < |requests|
      ensures r[i] == if i in places then TransferOutcome(requests[i], error) else requests[i]
    {
      if i in places {
        var k :| 0 <= k < |places| && places[k] == i;
      }
    }
  }

  function TransferOutcome(a: Attrs, error: Option<string>): Attrs {
    if error.Some? then TransferFailed(a, error.value) else a.(state := Transferred)
  }

  lemma TransferredTraced(config: Config, y: System, y': System, error: Option<string>, i: nat)
    requires Inv(config, y) && y.transferring.Some? && i < |y.requests| == |y'.requests|
    requires y'.requests[i] == if i in y.transferring.value then TransferOutcome(y.requests[i], error)
             else y.requests[i]
    requires y' == y.(requests := y'.requests, transferring := None)
    ensures Traced(config, y', i)
  {
    hide Consistent, Records, SentAsStored, Sane, RequestsOf;
    assert Traced(config, y, i);
    if i in y.transferring.value {
      MovesOn(y.requests[i], if error.Some? then TransferError else Transferred);
      SameRecords(config, y.replies, i, y.requests[i], y'.requests[i]);
    }
  }

  lemma EndTransferringKeepsInv(config: Config, y: System, error: Option<string>)
    requires Inv(config, y) && y.transferring.Some?
    ensures Inv(config, Step(config, y, EndTransferring(error)))
  {
    var places := y.transferring.value;
    var y' := Step(config, y, EndTransferring(error));
    forall k | 0 <= k < |places| ensures y.requests[places[k]].state == TransferInProgress {
      assert Traced(config, y, places[k]) && places[k] in places;
    }
    TransferBatchEnds(y.requests, places, error);
    StepIsSane(config, y, EndTransferring(error));
    hide EndTransfer, NoDuplicates, SentAsStored, Traced, Sane;
    forall i: nat | i < |y'.requests| ensures Traced(config, y', i) {
      TransferredTraced(config, y, y', error, i);
    }
    SentStay(config, y, y');
  }

  lemma SameRecords(config: Config, replies: seq<Reply>, i: nat, a: Attrs, b: Attrs)
    requires a.validationStatusRecord == b.validationStatusRecord
    ensures Records(config, replies, i, a) == Records(config, replies, i, b)
  {
  }

  /** The invariant holds after every run, and no state change is ever asked for in the wrong state. */
  lemma {:induction false} EveryRun(config: Config, actions: seq<Action>)
    ensures Inv(config, After(config, actions))
  {
    hide Inv, Step;
    if actions == [] {
      assert Inv(config, EMPTY_SYSTEM) by { EmptyIsFine(config); }
    } else {
      var n := |actions| - 1;
      EveryRun(config, actions[..n]);
      StepKeepsInv(config, After(config, actions[..n]), actions[n]);
    }
  }

  lemma EmptyIsFine(config: Config)
    ensures Inv(config, EMPTY_SYSTEM)
  {
  }

  lemma StepKeepsInv(config: Config, y: System, action: Action)
    requires Inv(config, y)
    ensures Inv(config, Step(config, y, action))
  {
    hide Traced, SentAsStored;
    match action
    case Create(seller, buyer, volume) => CreateKeepsInv(config, y, seller, buyer, volume);
    case StartIssuing => if y.issuing.None? { StartIssuingKeepsInv(config, y); }
    case EndIssuing(issuance) => if y.issuing.Some? { EndIssuingKeepsInv(config, y, issuance); }
    case StartValidating => StartValidatingKeepsInv(config, y);
    case Answer(reply) => AnswerKeepsInv(config, y, reply);
    case StartTransferring => if y.transferring.None? { StartTransferringKeepsInv(config, y); }
    case EndTransferring(error) => if y.transferring.Some? { EndTransferringKeepsInv(config, y, error); }
  }

  // ----- what this means for a request

  /** A request is handed over for issuance at most once and for transfer at most once. */
  lemma {:induction false} HandedOverAtMostOnce(config: Config, actions: seq<Action>, i: nat)
    ensures var y := After(config, actions);
            multiset(y.issued)[i] <= 1 && multiset(RequestsOf(y.sent))[i] <= 1
  {
    EveryRun(config, actions);
    var y := After(config, actions);
    if i < |y.requests| {
      assert Traced(config, y, i);
    } else {
      NobodyKnows(config, y, i);
    }
  }

  /**
   * Whatever is sent for transfer has a certificate, goes from the seller to a different buyer, and
   * has been found valid by every validator.
   */
  lemma SentOnlyWhenValid(config: Config, actions: seq<Action>, k: nat)
    requires k < |After(config, actions).sent|
    ensures var y := After(config, actions);
            var t := y.sent[k];
            && t.request < |y.requests| && t.certificateId.Some? && t.from != t.to && t.volume != 0
            && t.certificateId == y.requests[t.request].certificateId
            && t.from == y.requests[t.request].seller && t.to == y.requests[t.request].buyer
            && t.volume == y.requests[t.request].volume
            && forall name :: name in config.names ==> Decision(y.replies, t.request, name) == Valid
  {
    hide After;
    EveryRun(config, actions);
    var y := After(config, actions);
    assert SentAsStored(y, k);
    var i := y.sent[k].request;
    assert Traced(config, y, i);
    assert AllValid(y.requests[i].validationStatusRecord);
  }

  /**
   * A request whose validation has started passes it exactly when the first decision of every
   * validator is that it is valid, in whatever order the replies arrived.
   */
  lemma PassesExactlyWhen(config: Config, actions: seq<Action>, i: nat)
    requires i in After(config, actions).started
    ensures var y := After(config, actions);
            && i < |y.requests|
            && (Passed(y.requests[i].state) <==>
                forall name :: name in config.names ==> Decision(y.replies, i, name) == Valid)
  {
    hide After;
    EveryRun(config, actions);
    var y := After(config, actions);
    assert Traced(config, y, i);
    var record := y.requests[i].validationStatusRecord;
    assert forall name :: name in record <==> name in config.names;
  }

  /** It is refused exactly when some validator decides anything else, and waits while the others are all valid. */
  lemma {:induction false} RefusedExactlyWhen(config: Config, actions: seq<Action>, i: nat)
    requires i in After(config, actions).started
    ensures var y := After(config, actions);
            && i < |y.requests|
            && (y.requests[i].state == ValidationError || y.requests[i].state == ValidationInvalid <==>
                exists name :: name in config.names && Decision(y.replies, i, name) != Pending
                  && Decision(y.replies, i, name) != Valid)
  {
    hide After;
    EveryRun(config, actions);
    var y := After(config, actions);
    assert Traced(config, y, i);
    var record := y.requests[i].validationStatusRecord;
    assert forall name :: name in record <==> name in config.names;
    forall name | name in config.names ensures record[name] == Decision(y.replies, i, name) { }
  }
}
