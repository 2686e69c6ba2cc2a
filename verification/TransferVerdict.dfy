/**
 * How a request ends, told from the history of a run: which of the two refusals it gets, what a reply
 * is answered with, what the end of a batch makes of each of its requests, and that the terms of a
 * request stay as they were asked for.
 */
module TransferVerdict {
  import opened Sequences
  import opened Wrappers
  import opened RequestStates
  import opened TransferTasks
  import opened TransferRun

  // ----- the earliest refusal

  /** The k-th reply is the first decision of one of the request's validators, and does not find it valid. */
  ghost predicate Refuses(names: set<Name>, replies: seq<Reply>, i: nat, k: nat)
    requires k < |replies|
  {
    var r := replies[k];
    && r.request == i && r.name in names && (r.status == Invalid || r.status == Error)
    && Decision(replies[..k], i, r.name) == Pending
  }

  /** The k-th reply is the earliest refusal of the request. */
  ghost predicate RefusesFirst(names: set<Name>, replies: seq<Reply>, i: nat, k: nat) {
    && k < |replies| && Refuses(names, replies, i, k)
    && forall j: nat :: j < k ==> !Refuses(names, replies, i, j)
  }

  /** The status of the earliest refusal, pending if there is none. */
  ghost function Refusal(names: set<Name>, replies: seq<Reply>, i: nat): ValidationStatus {
    if replies == [] then Pending
    else
      var n := |replies| - 1;
      var before := Refusal(names, replies[..n], i);
      if before == Pending && Refuses(names, replies, i, n) then replies[n].status else before
  }

  lemma RefusesBefore(names: set<Name>, replies: seq<Reply>, i: nat, n: nat, k: nat)
    requires k < n <= |replies|
    ensures Refuses(names, replies[..n], i, k) == Refuses(names, replies, i, k)
  {
    assert replies[..n][..k] == replies[..k];
  }

  lemma {:induction false} RefusalIsFirst(names: set<Name>, replies: seq<Reply>, i: nat)
    ensures Refusal(names, replies, i) == Pending <==>
            forall k: nat :: k < |replies| ==> !Refuses(names, replies, i, k)
    ensures forall k: nat :: RefusesFirst(names, replies, i, k) ==> Refusal(names, replies, i) == replies[k].status
    ensures Refusal(names, replies, i) != Pending ==> exists k: nat :: RefusesFirst(names, replies, i, k)
  {
    if replies != [] {
      var n := |replies| - 1;
      RefusalIsFirst(names, replies[..n], i);
      forall k: nat | k < n ensures Refuses(names, replies[..n], i, k) == Refuses(names, replies, i, k) {
        RefusesBefore(names, replies, i, n, k);
      }
      hide Refuses;
      assert forall k: nat :: k < n ==>
        RefusesFirst(names, replies[..n], i, k) == RefusesFirst(names, replies, i, k);
      assert Refusal(names, replies[..n], i) == Pending && Refuses(names, replies, i, n) ==>
        RefusesFirst(names, replies, i, n);
    }
  }

  lemma RefusalStep(names: set<Name>, replies: seq<Reply>, r: Reply, i: nat)
    ensures Refusal(names, replies + [r], i) ==
            if Refusal(names, replies, i) == Pending && r.request == i && r.name in names
               && (r.status == Invalid || r.status == Error) && Decision(replies, i, r.name) == Pending
            then r.status
            else Refusal(names, replies, i)
  {
    assert (replies + [r])[..|replies|] == replies;
  }

  // ----- what the tasks make of a request

  /** The issue task takes the waiting requests with fewer than a batch of others waiting before them, in that order. */
  lemma IssuingStarts(config: Config, y: System, i: nat)
    requires Inv(config, y) && y.issuing.None? && i < |y.requests|
    ensures var a, b := y.requests[i], Step(config, y, StartIssuing).requests[i];
            if a.state == IssuanceAwaiting && CountInState(y.requests[..i], IssuanceAwaiting) < config.issueSize
            then b == a.(state := IssuanceInProgress) else b == a
    ensures var batch := Step(config, y, StartIssuing).issuing;
            batch.Some? && forall j, k :: 0 <= j < k < |batch.value| ==> batch.value[j] < batch.value[k]
  {
    var places := FindByState(y.requests, IssuanceAwaiting, config.issueSize);
    Found(y.requests, IssuanceAwaiting, config.issueSize);
    FindsExactly(y.requests, IssuanceAwaiting, config.issueSize, i);
    BatchBegins(BeginIssuance, y.requests, IssuanceAwaiting, IssuanceInProgress, places);
    hide Inv, ForEach, FindByState, NoDuplicates, CountInState;
  }

  lemma ValidatingStarts(config: Config, y: System, i: nat)
    requires Inv(config, y) && i < |y.requests|
    ensures var a, b := y.requests[i], Step(config, y, StartValidating).requests[i];
            if a.state == ValidationAwaiting
               && CountInState(y.requests[..i], ValidationAwaiting) < config.validateSize
            then && b == a.(state := b.state, validationStatusRecord := b.validationStatusRecord)
                 && b.state == (if config.names == {} then TransferAwaiting else ValidationInProgress)
                 && b.validationStatusRecord.Keys == config.names
                 && forall name :: name in config.names ==> b.validationStatusRecord[name] == Pending
            else b == a
  {
    var places := FindByState(y.requests, ValidationAwaiting, config.validateSize);
    Found(y.requests, ValidationAwaiting, config.validateSize);
    FindsExactly(y.requests, ValidationAwaiting, config.validateSize, i);
    ValidationBatchBegins(config.names, y.requests, places);
    assert Traced(config, y, i);
    if i in places { ValidationBegins(config.names, y.requests[i]); }
    hide Inv, Traced, ForEach, FindByState, NoDuplicates, CountInState;
  }

  lemma TransferringStarts(config: Config, y: System, i: nat)
    requires Inv(config, y) && y.transferring.None? && i < |y.requests|
    ensures var a, b := y.requests[i], Step(config, y, StartTransferring).requests[i];
            if a.state == TransferAwaiting && CountInState(y.requests[..i], TransferAwaiting) < config.transferSize
            then b == a.(state := TransferInProgress) else b == a
    ensures var batch := Step(config, y, StartTransferring).transferring;
            batch.Some? && forall j, k :: 0 <= j < k < |batch.value| ==> batch.value[j] < batch.value[k]
  {
    var places := FindByState(y.requests, TransferAwaiting, config.transferSize);
    Found(y.requests, TransferAwaiting, config.transferSize);
    FindsExactly(y.requests, TransferAwaiting, config.transferSize, i);
    BatchBegins(BeginTransfer, y.requests, TransferAwaiting, TransferInProgress, places);
    hide Inv, ForEach, FindByState, NoDuplicates, CountInState;
  }

  lemma IssuingBatch(config: Config, y: System)
    requires Inv(config, y) && y.issuing.Some?
    ensures AllInState(y.requests, IssuanceInProgress, y.issuing.value)
  {
    var places := y.issuing.value;
    forall k | 0 <= k < |places| ensures y.requests[places[k]].state == IssuanceInProgress {
      assert Traced(config, y, places[k]) && places[k] in places;
    }
  }

  lemma TransferringBatch(config: Config, y: System)
    requires Inv(config, y) && y.transferring.Some?
    ensures AllInState(y.requests, TransferInProgress, y.transferring.value)
  {
    var places := y.transferring.value;
    forall k | 0 <= k < |places| ensures y.requests[places[k]].state == TransferInProgress {
      assert Traced(config, y, places[k]) && places[k] in places;
    }
  }

  /**
   * When the certificates of a batch are issued its k-th request has the k-th certificate, and skips
   * its validation exactly when buyer and seller are the same; when that fails they are all in error.
   */
  lemma IssuingEnds(config: Config, y: System, issuance: Result<nat -> int, string>, i: nat)
    requires Inv(config, y) && y.issuing.Some? && i < |y.requests|
    ensures var a, b := y.requests[i], Step(config, y, EndIssuing(issuance)).requests[i];
            && (i !in y.issuing.value ==> b == a)
            && forall k :: 0 <= k < |y.issuing.value| && y.issuing.value[k] == i ==>
                 if issuance.Ok? then
                   b == a.(state := if a.buyer == a.seller then ValidationSkipped else ValidationAwaiting,
                           certificateId := Some(issuance.value(k)))
                 else b == a.(state := IssuanceError, processError := Some(issuance.error))
  {
    IssuingBatch(config, y);
    EndIssuanceChangesEach(y.requests, y.issuing.value, issuance);
    hide Inv, EndIssuance, NoDuplicates;
  }

  lemma TransferringEnds(config: Config, y: System, error: Option<string>, i: nat)
    requires Inv(config, y) && y.transferring.Some? && i < |y.requests|
    ensures var a, b := y.requests[i], Step(config, y, EndTransferring(error)).requests[i];
            if i !in y.transferring.value then b == a
            else if error == None then b == a.(state := Transferred)
            else b == a.(state := TransferError, processError := error)
  {
    TransferringBatch(config, y);
    TransferBatchEnds(y.requests, y.transferring.value, error);
    hide Inv, EndTransfer, NoDuplicates;
  }

  // ----- which refusal a request gets

  /** A started request is in one of the two refused states exactly when that is what was replied first. */
  ghost predicate RefusedAs(config: Config, y: System, i: nat)
    requires i < |y.requests|
  {
    var refusal := Refusal(config.names, y.replies, i);
    && (y.requests[i].state == ValidationError <==> refusal == Error)
    && (y.requests[i].state == ValidationInvalid <==> refusal == Invalid)
  }

  ghost predicate AllRefusedAs(config: Config, y: System) {
    forall i: nat :: i < |y.requests| ==> RefusedAs(config, y, i)
  }

  predicate SameRefusal(a: Attrs, b: Attrs) {
    (b.state == ValidationError <==> a.state == ValidationError)
    && (b.state == ValidationInvalid <==> a.state == ValidationInvalid)
  }

  /** Nothing but a reply puts a request in a refused state, or takes it out of one. */
  lemma OnlyRepliesRefuse(config: Config, y: System, action: Action, i: nat)
    requires Inv(config, y) && !action.Answer? && i < |y.requests|
    ensures var y' := Step(config, y, action);
            y'.replies == y.replies && i < |y'.requests| && SameRefusal(y.requests[i], y'.requests[i])
  {
    StepIsSane(config, y, action);
    assert Traced(config, y, i);
    match action
    case Create(_, _, _) =>
    case StartIssuing => if y.issuing.None? { IssuingStarts(config, y, i); }
    case EndIssuing(issuance) => if y.issuing.Some? { IssuingEnds(config, y, issuance, i); }
    case StartValidating => ValidatingStarts(config, y, i);
    case StartTransferring => if y.transferring.None? { TransferringStarts(config, y, i); }
    case EndTransferring(error) => if y.transferring.Some? { TransferringEnds(config, y, error, i); }
  }

  /** The verdict on a request that was waiting for its validators, once one more of them has decided. */
  lemma VerdictOfFirst(a: Attrs, name: Name, status: ValidationStatus)
    requires Judged(a) && a.state == ValidationInProgress
    requires name in a.validationStatusRecord && a.validationStatusRecord[name] == Pending
    ensures var b := UpdateValidationStatus(a, name, status).0;
            && (b.state == ValidationError <==> status == Error)
            && (b.state == ValidationInvalid <==> status == Invalid)
  {
    var record := a.validationStatusRecord;
    var record' := record[name := status];
    assert record'[name] == status;
    assert forall other :: other in record ==> record[other] != Error && record[other] != Invalid;
  }

  lemma ReplyRefuses(config: Config, replies: seq<Reply>, a: Attrs, r: Reply)
    requires Started(a.state) && Judged(a) && Records(config, replies, r.request, a)
    requires a.state == ValidationError <==> Refusal(config.names, replies, r.request) == Error
    requires a.state == ValidationInvalid <==> Refusal(config.names, replies, r.request) == Invalid
    ensures var b := UpdateValidationStatus(a, r.name, r.status).0;
            var refusal := Refusal(config.names, replies + [r], r.request);
            (b.state == ValidationError <==> refusal == Error) && (b.state == ValidationInvalid <==> refusal == Invalid)
  {
    RefusalStep(config.names, replies, r, r.request);
    if r.name in config.names && a.validationStatusRecord[r.name] == Pending {
      RefusalIsRefusal(config.names, replies, r.request);
      if a.state == ValidationInProgress {
        VerdictOfFirst(a, r.name, r.status);
      } else {
        assert !AllValid(a.validationStatusRecord);
      }
    }
  }

  lemma {:induction false} RefusalIsRefusal(names: set<Name>, replies: seq<Reply>, i: nat)
    ensures Refusal(names, replies, i) != Valid
  {
    if replies != [] {
      RefusalIsRefusal(names, replies[..|replies| - 1], i);
    }
  }

  lemma AnsweredRefuses(config: Config, y: System, r: Reply)
    requires Inv(config, y) && r.request < |y.requests| && RefusedAs(config, y, r.request)
    ensures RefusedAs(config, Step(config, y, Answer(r)), r.request)
  {
    var a := y.requests[r.request];
    assert Traced(config, y, r.request);
    if r.request in y.started {
      ReplyRefuses(config, y.replies, a, r);
    } else {
      assert UpdateValidationStatus(a, r.name, r.status).0 == a;
    }
  }

  lemma AnswerRefuses(config: Config, y: System, r: Reply)
    requires Inv(config, y) && AllRefusedAs(config, y) && r.request < |y.requests|
    ensures AllRefusedAs(config, Step(config, y, Answer(r)))
  {
    var y' := Step(config, y, Answer(r));
    var i := r.request;
    AnsweredRefuses(config, y, r);
    hide Inv, Refusal, UpdateValidationStatus;
    forall j: nat | j < |y'.requests| ensures RefusedAs(config, y', j) {
      assert RefusedAs(config, y, j);
      if j != i { RefusalStep(config.names, y.replies, r, j); }
    }
  }

  lemma {:induction false} AlwaysRefusedAs(config: Config, actions: seq<Action>)
    ensures AllRefusedAs(config, After(config, actions))
  {
    if actions != [] {
      var n := |actions| - 1;
      var y, action := After(config, actions[..n]), actions[n];
      AlwaysRefusedAs(config, actions[..n]);
      EveryRun(config, actions[..n]);
      StepRefuses(config, y, action);
    }
  }

  lemma StepRefuses(config: Config, y: System, action: Action)
    requires Inv(config, y) && AllRefusedAs(config, y)
    ensures AllRefusedAs(config, Step(config, y, action))
  {
    match action
    case Answer(r) => if r.request < |y.requests| { AnswerRefuses(config, y, r); }
    case _ =>
      var y' := Step(config, y, action);
      forall i: nat | i < |y'.requests| ensures RefusedAs(config, y', i) {
        if i < |y.requests| {
          assert RefusedAs(config, y, i);
          OnlyRepliesRefuse(config, y, action, i);
        } else {
          NewIsNotRefused(config, y, action, i);
        }
      }
  }

  lemma NewIsNotRefused(config: Config, y: System, action: Action, i: nat)
    requires Inv(config, y) && !action.Answer? && |y.requests| <= i < |Step(config, y, action).requests|
    ensures RefusedAs(config, Step(config, y, action), i)
  {
    NobodyKnows(config, y, i);
    RefusalIsFirst(config.names, y.replies, i);
  }

  /**
   * A request whose validation has started is in error exactly when the earliest of its validators'
   * first decisions that is not that it is valid is an error, and it is invalid exactly when that
   * decision is that it is invalid, whatever else was replied and whatever the tasks did meanwhile.
   */
  lemma RefusedAsReplied(config: Config, actions: seq<Action>, i: nat)
    requires i in After(config, actions).started
    ensures var y := After(config, actions);
            && i < |y.requests|
            && (y.requests[i].state == ValidationError <==>
                exists k: nat :: RefusesFirst(config.names, y.replies, i, k) && y.replies[k].status == Error)
            && (y.requests[i].state == ValidationInvalid <==>
                exists k: nat :: RefusesFirst(config.names, y.replies, i, k) && y.replies[k].status == Invalid)
  {
    EveryRun(config, actions);
    AlwaysRefusedAs(config, actions);
    var y := After(config, actions);
    assert RefusedAs(config, y, i);
    hide After, Traced, Refusal, Refuses;
    RefusalIsFirst(config.names, y.replies, i);
  }

  /** What a reply is answered with; only one that is a success changes the request. */
  lemma ReplyIsAnswered(config: Config, actions: seq<Action>, r: Reply)
    requires r.request < |After(config, actions).requests|
    ensures var y := After(config, actions);
            var (a, code) := UpdateValidationStatus(y.requests[r.request], r.name, r.status);
            && (code == NoValidator <==> r.request !in y.started || r.name !in config.names)
            && (code == Success <==> r.request in y.started && r.name in config.names
                                     && Decision(y.replies, r.request, r.name) == Pending)
            && (code != Success ==> a == y.requests[r.request])
  {
    EveryRun(config, actions);
    assert Traced(config, After(config, actions), r.request);
  }

  // ----- the terms of a request

  datatype Terms = Terms(seller: string, buyer: string, volume: int)

  function TermsOf(a: Attrs): Terms {
    Terms(a.seller, a.buyer, a.volume)
  }

  /** The terms that were asked for, in the order of the run. */
  function Asked(actions: seq<Action>): seq<Terms> {
    if actions == [] then []
    else
      var n := |actions| - 1;
      Asked(actions[..n]) +
      if actions[n].Create? then [Terms(actions[n].seller, actions[n].buyer, actions[n].volume)] else []
  }

  lemma {:induction false} ForEachKeepsTerms(change: Change, requests: seq<Attrs>, places: seq<nat>)
    requires Places(places, requests)
    ensures forall i :: 0 <= i < |requests| ==> TermsOf(ForEach(change, requests, places).0[i]) == TermsOf(requests[i])
  {
    if places != [] {
      var n := |places| - 1;
      ForEachKeepsTerms(change, requests, places[..n]);
      var before := ForEach(change, requests, places[..n]).0;
      assert Changed(change, n, before[places[n]]).Some? ==>
        TermsOf(Changed(change, n, before[places[n]]).value) == TermsOf(before[places[n]]);
    }
  }

  lemma EndsKeepTerms(requests: seq<Attrs>, places: seq<nat>, issuance: Result<nat -> int, string>,
                      error: Option<string>)
    requires Places(places, requests)
    ensures forall i :: 0 <= i < |requests| ==>
              && TermsOf(EndIssuance(requests, places, issuance)[i]) == TermsOf(requests[i])
              && TermsOf(EndTransfer(requests, places, error)[i]) == TermsOf(requests[i])
  {
    hide ForEach;
    forall change, rs | Places(places, rs)
      ensures forall i :: 0 <= i < |rs| ==> TermsOf(ForEach(change, rs, places).0[i]) == TermsOf(rs[i])
    {
      ForEachKeepsTerms(change, rs, places);
    }
  }

  lemma StepKeepsTerms(config: Config, y: System, action: Action)
    requires Sane(y)
    ensures var y' := Step(config, y, action);
            && |y'.requests| == |y.requests| + (if action.Create? then 1 else 0)
            && (forall i :: 0 <= i < |y.requests| ==> TermsOf(y'.requests[i]) == TermsOf(y.requests[i]))
            && (action.Create? ==>
                TermsOf(y'.requests[|y.requests|]) == Terms(action.seller, action.buyer, action.volume))
  {
    match action
    case EndIssuing(issuance) =>
      if y.issuing.Some? { EndsKeepTerms(y.requests, y.issuing.value, issuance, None); }
    case EndTransferring(error) =>
      if y.transferring.Some? { EndsKeepTerms(y.requests, y.transferring.value, Err(""), error); }
    case StartIssuing =>
      Found(y.requests, IssuanceAwaiting, config.issueSize);
      ForEachKeepsTerms(BeginIssuance, y.requests, FindByState(y.requests, IssuanceAwaiting, config.issueSize));
    case StartValidating =>
      Found(y.requests, ValidationAwaiting, config.validateSize);
      ForEachKeepsTerms(BeginValidation(config.names), y.requests,
                        FindByState(y.requests, ValidationAwaiting, config.validateSize));
    case StartTransferring =>
      Found(y.requests, TransferAwaiting, config.transferSize);
      ForEachKeepsTerms(BeginTransfer, y.requests, FindByState(y.requests, TransferAwaiting, config.transferSize));
    case _ =>
  }

  /** After every run the i-th request is between the parties, and for the volume, that were asked for i-th. */
  lemma {:induction false} AsAsked(config: Config, actions: seq<Action>)
    ensures var requests := After(config, actions).requests;
            && |requests| == |Asked(actions)|
            && forall i :: 0 <= i < |requests| ==> TermsOf(requests[i]) == Asked(actions)[i]
  {
    if actions != [] {
      var n := |actions| - 1;
      AsAsked(config, actions[..n]);
      StepKeepsTerms(config, After(config, actions[..n]), actions[n]);
      hide Step, TermsOf;
    }
  }
}
