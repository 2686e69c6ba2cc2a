/** What an answered request leaves in the store: its commands, and one event for each of them if it is accepted. */
module CertificateRequests {
  import opened Wrappers
  import opened CertificateEvents
  import opened CertificateAggregate
  import opened CertificateStore
  import opened CertificateStoreFacts
  import opened SyncProtocol

  function CommandsOf(r: Request): seq<Command> {
    match r
    case IssueOne(command) => [command]
    case OnOne(command) => [command]
    case IssueMany(commands) => commands
    case OnMany(commands) => commands
  }

  function CertificatesIssued(r: Request): nat {
    if r.IssueOne? || r.IssueMany? then |CommandsOf(r)| else 0
  }

  /** The event says what the command says, of the certificate that the command names. */
  ghost predicate Carries(e: Event, command: Command) {
    match command
    case IssueCommand(toAddress, issued, details) =>
      && e.payload.Issued? && e.payload.toAddress == toAddress
      && e.payload.issued == issued && e.payload.details == details
    case TransferCommand(certificateId, fromAddress, recipient, transferred) =>
      && e.certificateId == certificateId
      && e.payload.Transferred? && e.payload.fromAddress == fromAddress
      && e.payload.recipient == recipient && e.payload.transferred == transferred
    case ClaimCommand(certificateId, forAddress, claimed) =>
      && e.certificateId == certificateId
      && e.payload.Claimed? && e.payload.forAddress == forAddress && e.payload.claimed == claimed
    case RecordCommand(_) => false
  }

  /**
   * One event for each command, in order, with the next ids and times; certificates are issued under
   * the next serials.
   */
  ghost predicate EventsFor(clock: Clock, s: Store, r: Request, es: seq<Event>) {
    && |es| == |CommandsOf(r)|
    && forall i :: 0 <= i < |es| ==>
         && es[i].id == |s.events| + i + 1 && es[i].createdAt == clock(|s.events| + i)
         && Carries(es[i], CommandsOf(r)[i])
         && (es[i].payload.Issued? ==> es[i].certificateId == s.serial + i + 1)
  }

  /** Every certificate's events, followed by its share of the new ones, make a certificate. */
  ghost predicate Acceptable(s: Store, es: seq<Event>) {
    forall id :: LogOf(es, id) != [] ==> FromEvents(LogOf(s.events, id) + LogOf(es, id)).Ok?
  }

  /** Nothing but the commands and the serial has changed. */
  ghost predicate OnlyRecorded(s: Store, s': Store) {
    s'.events == s.events && s'.attempts == s.attempts && s'.models == s.models
  }

  ghost predicate HasId(es: seq<Event>, id: nat) {
    exists i :: 0 <= i < |es| && es[i].id == id
  }

  /** Each of the events has a row that counts no attempt, and the other rows are as before. */
  ghost predicate NewRows(attempts: Attempts, attempts': Attempts, es: seq<Event>) {
    && (forall id :: id in attempts' <==> id in attempts || HasId(es, id))
    && (forall id | id in attempts' :: attempts'[id] == if HasId(es, id) then Attempt(0, false) else attempts[id])
  }

  /** Each certificate with new events has the read model of all its events, and the others are as before. */
  ghost predicate NewModels(s: Store, s': Store, es: seq<Event>) {
    forall id ::
      if LogOf(es, id) != [] then
        id in s'.models && FromEvents(LogOf(s.events, id) + LogOf(es, id)) == Ok(s'.models[id])
      else (id in s'.models <==> id in s.models) && (id in s.models ==> s'.models[id] == s.models[id])
  }

  /** The events are stored, with their rows and in the read models. */
  ghost predicate Stored(s: Store, s': Store, es: seq<Event>) {
    s'.events == s.events + es && NewRows(s.attempts, s'.attempts, es) && NewModels(s, s', es)
  }

  ghost predicate Answered(clock: Clock, s: Store, r: Request, s': Store, es: seq<Event>) {
    && EventsFor(clock, s, r, es)
    && s'.commands == s.commands + CommandsOf(r)
    && s'.serial == s.serial + CertificatesIssued(r)
    && if Acceptable(s, es) then Stored(s, s', es) else OnlyRecorded(s, s')
  }

  lemma LogOfOne(e: Event)
    ensures forall id :: LogOf([e], id) == if e.certificateId == id then [e] else []
  {
    forall id ensures LogOf([e], id) == if e.certificateId == id then [e] else [] {
      LogOfEmpty([], id);
      LogOfAppend([], e, id);
      assert [] + [e] == [e];
      assert LogOf([], id) + [] == [];
    }
  }

  lemma AcceptableOne(s: Store, e: Event)
    ensures Acceptable(s, [e]) <==> Aggregate(s, e).Ok?
  {
    hide LogOf, FromEvents;
    LogOfOne(e);
    assert LogOf([e], e.certificateId) != [];
  }

  lemma AcceptableMany(s: Store, es: seq<Event>)
    ensures Acceptable(s, es) <==> BatchAccepted(s, es)
  {
    hide LogOf, FromEvents;
    forall id ensures LogOf(es, id) != [] <==> id in CertificatesOf(es) {
      LogOfEmpty(es, id);
    }
  }

  lemma OneAnswered(clock: Clock, s: Store, counted: Store, r: Request, command: Command, id: CertId)
    requires LogInOrder(clock, s) && !command.RecordCommand? && CommandsOf(r) == [command]
    requires counted == s.(serial := s.serial + CertificatesIssued(r))
    requires if command.IssueCommand? then id == s.serial + 1 else id == command.certificateId
    ensures var e := NewEvent(clock, s, id, PayloadOf(command));
            Answered(clock, s, r, Append(clock, counted, command, id, PayloadOf(command)).0, [e])
  {
    hide LogOf, Acceptable, FromEvents, NewRows, NewModels;
    var e := NewEvent(clock, s, id, PayloadOf(command));
    AcceptableOne(s, e);
    if Aggregate(s, e).Ok? {
      RowOfOne(s, e, Aggregate(s, e).value);
      ModelOfOne(s, Propagate(Record(counted, command), e, Aggregate(s, e).value), e);
    }
  }

  lemma RowOfOne(s: Store, e: Event, c: Certificate)
    requires ToSynchronize(e)
    ensures NewRows(s.attempts, Propagate(s, e, c).attempts, [e])
  {
    assert forall id :: HasId([e], id) <==> id == e.id by {
      assert [e][0] == e;
    }
  }

  lemma ModelOfOne(s: Store, s': Store, e: Event)
    requires Aggregate(s, e).Ok? && s'.models == s.models[e.certificateId := Aggregate(s, e).value]
    ensures NewModels(s, s', [e])
  {
    hide LogOf, FromEvents;
    LogOfOne(e);
  }

  lemma {:induction false} RowsOfNew(attempts: Attempts, es: seq<Event>)
    requires forall i :: 0 <= i < |es| ==> ToSynchronize(es[i])
    ensures NewRows(attempts, NewAttempts(attempts, es), es)
  {
    if es != [] {
      var n := |es| - 1;
      RowsOfNew(attempts, es[..n]);
      forall id ensures HasId(es, id) <==> HasId(es[..n], id) || es[n].id == id {
        assert HasId(es[..n], id) ==> exists i :: 0 <= i < n && es[..n][i].id == id && es[i].id == id;
        if i :| 0 <= i < |es| && es[i].id == id && i < n {
          assert es[..n][i].id == id;
        }
      }
    }
  }

  lemma ModelsOfMany(s: Store, es: seq<Event>)
    requires BatchAccepted(s, es)
    ensures NewModels(s, PropagateMany(s, es), es)
  {
    hide LogOf, FromEvents;
    forall id ensures LogOf(es, id) != [] <==> id in CertificatesOf(es) {
      LogOfEmpty(es, id);
    }
  }

  lemma RecordedAccepts(s: Store, commands: seq<Command>, es: seq<Event>)
    ensures BatchAccepted(RecordAll(s, commands), es) == BatchAccepted(s, es)
  {
    hide LogOf, FromEvents;
  }

  lemma ManyAnswered(clock: Clock, s: Store, counted: Store, r: Request, commands: seq<Command>, ids: seq<CertId>)
    requires LogInOrder(clock, s) && |ids| == |commands| && commands == CommandsOf(r)
    requires forall i :: 0 <= i < |commands| ==> !commands[i].RecordCommand?
    requires counted == s.(serial := s.serial + CertificatesIssued(r))
    requires forall i :: 0 <= i < |commands| ==>
               ids[i] == if commands[i].IssueCommand? then s.serial + i + 1 else commands[i].certificateId
    ensures Answered(clock, s, r, Batch(clock, counted, commands, ids).0, BatchEvents(clock, s, commands, ids))
  {
    hide LogOf, FromEvents, Acceptable, BatchAccepted, NewAttempts, NewRows, GroupAggregate;
    var es := BatchEvents(clock, s, commands, ids);
    assert BatchEvents(clock, counted, commands, ids) == es;
    AcceptableMany(counted, es);
    assert Acceptable(counted, es) == Acceptable(s, es) by { SameAcceptable(s, counted, es); }
    if BatchAccepted(counted, es) {
      RowsOfNew(s.attempts, es);
      RecordedAccepts(counted, commands, es);
      ModelsOfMany(RecordAll(counted, commands), es);
    }
  }

  lemma SameAcceptable(s: Store, s': Store, es: seq<Event>)
    requires s.events == s'.events
    ensures Acceptable(s, es) == Acceptable(s', es)
  {
    hide LogOf, FromEvents;
  }

  /**
   * Whatever is requested, its commands are recorded in order; if every certificate accepts its share, one
   * event for each command is stored, which says what the command says, with a new row and in the read
   * models, and otherwise none.
   */
  lemma ServeAnswers(clock: Clock, s: Store, r: Request)
    requires LogInOrder(clock, s)
    ensures exists es :: Answered(clock, s, r, Serve(clock, s, r), es)
  {
    hide Answered, Append, Batch, BatchEvents;
    var counted := s.(serial := s.serial + CertificatesIssued(r));
    assert !r.IssueOne? && !r.IssueMany? ==> counted == s;
    match r
    case IssueOne(command) =>
      assert CertificatesIssued(r) == 1;
      OneAnswered(clock, s, counted, r, command, s.serial + 1);
      assert Serve(clock, s, r) == Append(clock, counted, command, s.serial + 1, PayloadOf(command)).0;
    case OnOne(command) =>
      OneAnswered(clock, s, counted, r, command, command.certificateId);
      assert Serve(clock, s, r) == Append(clock, counted, command, command.certificateId, PayloadOf(command)).0;
    case IssueMany(commands) =>
      assert CertificatesIssued(r) == |commands|;
      ManyAnswered(clock, s, counted, r, commands, FreshIds(s.serial, |commands|));
      assert Serve(clock, s, r) == Batch(clock, counted, commands, FreshIds(s.serial, |commands|)).0;
    case OnMany(commands) =>
      ManyAnswered(clock, s, counted, r, commands, TargetsOf(commands));
      assert Serve(clock, s, r) == Batch(clock, counted, commands, TargetsOf(commands)).0;
  }
}
