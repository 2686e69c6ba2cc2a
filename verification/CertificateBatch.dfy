/** A batch of commands does what the same commands do one by one, or nothing but record them. */
module CertificateBatch {
  import opened Sequences
  import opened CertificateEvents
  import opened CertificateAggregate
  import opened CertificateStore
  import opened CertificateStoreFacts

  // ----- the log of a certificate stays good when it is cut short

  lemma {:induction false} NewEventsWeigh(es: seq<Event>)
    requires forall i :: 0 <= i < |es| ==> ToSynchronize(es[i])
    ensures SumOf(SyncWeight, es) == |es|
  {
    if es != [] {
      NewEventsWeigh(es[..|es| - 1]);
    }
  }

  /** The stored log of a certificate is empty or has a certificate, so it owes no more than it has. */
  lemma StoredLogOwes(clock: Clock, s: Store, id: CertId)
    requires Consistent(clock, s)
    ensures 0 <= ToPersist(LogOf(s.events, id))
    ensures Sorted(LogOf(s.events, id))
  {
    LogIsSorted(clock, s);
    LogOfSorted(s.events, id);
    if LogOf(s.events, id) != [] {
      FromSortedEvents(LogOf(s.events, id));
    }
  }

  /** If a certificate's share of a batch is good, so is the share without its last event. */
  lemma ShorterGroupIsGood(log: seq<Event>, group: seq<Event>, e: Event)
    requires Sorted(log + group + [e])
    requires 0 <= ToPersist(log)
    requires forall i :: 0 <= i < |group| ==> ToSynchronize(group[i])
    requires group != [] && FromEvents(log + group + [e]).Ok?
    ensures FromEvents(log + group).Ok?
  {
    var shorter := log + group;
    assert (shorter + [e])[..|shorter|] == shorter;
    FromSortedEvents(shorter + [e]);
    assert Sorted(shorter) by {
      assert forall i :: 0 <= i < |shorter| ==> shorter[i] == (shorter + [e])[i];
    }
    FromSortedEvents(shorter);
    SumOfConcat(SyncWeight, log, group);
    NewEventsWeigh(group);
  }

  // ----- the events of a batch

  ghost predicate NewCommands(commands: seq<Command>) {
    forall i :: 0 <= i < |commands| ==> !commands[i].RecordCommand?
  }

  lemma {:induction false} LogOfNewEvents(es: seq<Event>, id: CertId)
    requires forall i :: 0 <= i < |es| ==> ToSynchronize(es[i])
    ensures forall i :: 0 <= i < |LogOf(es, id)| ==> ToSynchronize(LogOf(es, id)[i])
    ensures LogOf(es, id) == [] <==> id !in CertificatesOf(es)
  {
    LogOfEmpty(es, id);
    if es != [] {
      LogOfNewEvents(es[..|es| - 1], id);
    }
  }

  lemma LogWithBatchSorted(clock: Clock, s: Store, commands: seq<Command>, ids: seq<CertId>, id: CertId)
    requires Consistent(clock, s) && |ids| == |commands|
    ensures Sorted(LogOf(s.events, id) + LogOf(BatchEvents(clock, s, commands, ids), id))
  {
    var es := BatchEvents(clock, s, commands, ids);
    assert Sorted(s.events + es) by {
      forall i | 0 <= i < |s.events + es| ensures (s.events + es)[i].createdAt == clock(i) {
        if i >= |s.events| {
          assert (s.events + es)[i] == es[i - |s.events|];
        }
      }
    }
    LogOfSorted(s.events + es, id);
    LogOfConcat(s.events, es, id);
  }

  function LastEvent(clock: Clock, s: Store, n: nat, command: Command, id: CertId): Event {
    Event(|s.events| + n + 1, id, clock(|s.events| + n), PayloadOf(command))
  }

  lemma BatchEventsAppend(clock: Clock, s: Store, commands: seq<Command>, ids: seq<CertId>, command: Command,
                          id: CertId)
    requires |ids| == |commands|
    ensures BatchEvents(clock, s, commands + [command], ids + [id]) ==
            BatchEvents(clock, s, commands, ids) + [LastEvent(clock, s, |commands|, command, id)]
  {
  }

  lemma BatchEventsAreNew(clock: Clock, s: Store, commands: seq<Command>, ids: seq<CertId>)
    requires |ids| == |commands| && NewCommands(commands)
    ensures forall i :: 0 <= i < |commands| ==> ToSynchronize(BatchEvents(clock, s, commands, ids)[i])
  {
  }

  /** Adding one event to a batch asks for one more good aggregate: that of the event's certificate. */
  lemma AcceptedStep(clock: Clock, s: Store, commands: seq<Command>, ids: seq<CertId>, command: Command, id: CertId)
    requires Consistent(clock, s) && NewCommands(commands) && |ids| == |commands|
    ensures var es, e := BatchEvents(clock, s, commands, ids), LastEvent(clock, s, |commands|, command, id);
            BatchAccepted(s, es + [e]) <==> BatchAccepted(s, es) && GroupAggregate(s, es + [e], id).Ok?
  {
    hide FromEvents, LogOf, BatchEvents;
    var es, e := BatchEvents(clock, s, commands, ids), LastEvent(clock, s, |commands|, command, id);
    CertificatesStep(es, e);
    if GroupAggregate(s, es + [e], id).Ok? && id in CertificatesOf(es) {
      var log, group := LogOf(s.events, id), LogOf(es, id);
      StoredLogOwes(clock, s, id);
      BatchEventsAreNew(clock, s, commands, ids);
      LogOfNewEvents(es, id);
      LogOfAppend(es, e, id);
      BatchEventsAppend(clock, s, commands, ids, command, id);
      LogWithBatchSorted(clock, s, commands + [command], ids + [id], id);
      assert log + (group + [e]) == log + group + [e];
      ShorterGroupIsGood(log, group, e);
    }
    forall other | other != id ensures GroupAggregate(s, es + [e], other) == GroupAggregate(s, es, other) {
      GroupUnchanged(s, es, e, other);
    }
  }

  lemma GroupUnchanged(s: Store, es: seq<Event>, e: Event, id: CertId)
    requires id != e.certificateId
    ensures GroupAggregate(s, es + [e], id) == GroupAggregate(s, es, id)
  {
    hide FromEvents, LogOf;
    LogOfAppend(es, e, id);
    assert LogOf(es + [e], id) == LogOf(es, id);
  }

  lemma CertificatesStep(es: seq<Event>, e: Event)
    ensures CertificatesOf(es + [e]) == CertificatesOf(es) + {e.certificateId}
  {
    var longer := es + [e];
    assert longer[|es|].certificateId == e.certificateId;
    assert forall i :: 0 <= i < |es| ==> es[i] == longer[i];
  }

  /** The aggregate that the last command would build after the others is its certificate's share of the batch. */
  lemma LastAggregate(s: Store, before: Store, es: seq<Event>, e: Event)
    requires before.events == s.events + es
    ensures Aggregate(before, e) == GroupAggregate(s, es + [e], e.certificateId)
  {
    hide FromEvents, LogOf;
    var id := e.certificateId;
    LogOfConcat(s.events, es, id);
    LogOfAppend(es, e, id);
    assert LogOf(s.events, id) + LogOf(es, id) + [e] == LogOf(s.events, id) + (LogOf(es, id) + [e]);
  }

  lemma ModelsStep(s: Store, before: Store, es: seq<Event>, e: Event)
    requires BatchAccepted(s, es) && BatchAccepted(s, es + [e])
    requires before.events == s.events + es && before.models == PropagateMany(s, es).models
    requires Aggregate(before, e).Ok?
    ensures before.models[e.certificateId := Aggregate(before, e).value] == PropagateMany(s, es + [e]).models
  {
    hide GroupAggregate, CertificatesOf, Aggregate, LogOf;
    LastAggregate(s, before, es, e);
    CertificatesStep(es, e);
    forall id | id in CertificatesOf(es) && id != e.certificateId
      ensures GroupAggregate(s, es + [e], id) == GroupAggregate(s, es, id)
    {
      GroupUnchanged(s, es, e, id);
    }
  }

  lemma AttemptsStep(attempts: Attempts, es: seq<Event>, e: Event)
    ensures NewAttempts(attempts, es + [e]) ==
            if ToSynchronize(e) then NewAttempts(attempts, es)[e.id := Attempt(0, false)] else NewAttempts(attempts, es)
  {
    assert (es + [e])[..|es|] == es;
  }

  lemma NothingToUpdate(attempts: Attempts, error: bool)
    ensures UpdateAttempt(attempts, [], error) == attempts
  {
  }

  lemma PropagateStep(s: Store, before: Store, es: seq<Event>, e: Event, commands: seq<Command>, command: Command)
    requires BatchAccepted(s, es) && BatchAccepted(s, es + [e]) && ToSynchronize(e)
    requires before == PropagateMany(RecordAll(s, commands), es)
    requires Aggregate(before, e).Ok?
    ensures Propagate(Record(before, command), e, Aggregate(before, e).value) ==
            PropagateMany(RecordAll(s, commands + [command]), es + [e])
  {
    hide GroupAggregate, CertificatesOf, BatchAccepted, Aggregate, NewAttempts, UpdateAttempt;
    SameModels(s, commands, es);
    ModelsStep(s, before, es, e);
    AttemptsStep(s.attempts, es, e);
    NothingToUpdate(SaveEvent(before, e).attempts, false);
    assert before.commands + [command] == s.commands + (commands + [command]);
    assert before.events + [e] == s.events + (es + [e]);
    SameModels(s, commands + [command], es + [e]);
  }

  lemma SameModels(s: Store, commands: seq<Command>, es: seq<Event>)
    requires BatchAccepted(s, es)
    ensures BatchAccepted(RecordAll(s, commands), es)
    ensures PropagateMany(RecordAll(s, commands), es) == PropagateMany(s, es).(commands := s.commands + commands)
  {
    hide FromEvents, LogOf;
    forall id ensures GroupAggregate(RecordAll(s, commands), es, id) == GroupAggregate(s, es, id) { }
  }

  /**
   * Batch refines sequence: a batch is accepted exactly when its commands would all be accepted one
   * by one, and then leaves the same store; otherwise it leaves everything but the recorded commands
   * as it was.
   */
  lemma {:induction false} BatchRefinesSequence(clock: Clock, s: Store, commands: seq<Command>, ids: seq<CertId>)
    requires Consistent(clock, s) && NewCommands(commands) && |ids| == |commands|
    ensures SameOutcome(clock, s, commands, ids)
    ensures !Batch(clock, s, commands, ids).1 ==>
            Batch(clock, s, commands, ids).0 == s.(commands := s.commands + commands)
  {
    hide SameOutcome, BatchAccepted, PropagateMany, BatchEvents, Consistent;
    if commands == [] {
      EmptyBatch(clock, s, commands, ids);
    } else {
      var n := |commands| - 1;
      BatchRefinesSequence(clock, s, commands[..n], ids[..n]);
      BatchStep(clock, s, commands[..n], ids[..n], commands[n], ids[n]);
      assert commands == commands[..n] + [commands[n]] && ids == ids[..n] + [ids[n]];
    }
  }

  lemma EmptyBatch(clock: Clock, s: Store, commands: seq<Command>, ids: seq<CertId>)
    requires commands == [] && ids == []
    ensures SameOutcome(clock, s, commands, ids)
  {
    var es := BatchEvents(clock, s, commands, ids);
    assert s.commands + commands == s.commands && s.events + es == s.events;
    assert PropagateMany(RecordAll(s, commands), es).models == s.models;
    assert Batch(clock, s, commands, ids) == (s, true);
  }

  /** The batch and the sequence agree on acceptance, and on the store when they accept. */
  ghost predicate SameOutcome(clock: Clock, s: Store, commands: seq<Command>, ids: seq<CertId>)
    requires |ids| == |commands|
  {
    var batch, sequence := Batch(clock, s, commands, ids), AppendAll(clock, s, commands, ids);
    batch.1 == sequence.1 && (batch.1 ==> batch.0 == sequence.0)
  }

  lemma BatchStep(clock: Clock, s: Store, commands: seq<Command>, ids: seq<CertId>, command: Command, id: CertId)
    requires Consistent(clock, s) && NewCommands(commands) && !command.RecordCommand?
    requires |ids| == |commands| && SameOutcome(clock, s, commands, ids)
    ensures SameOutcome(clock, s, commands + [command], ids + [id])
  {
    hide GroupAggregate, CertificatesOf, BatchAccepted, PropagateMany, BatchEvents, AppendAll, Append, Consistent;
    var es, e := BatchEvents(clock, s, commands, ids), LastEvent(clock, s, |commands|, command, id);
    BatchEventsAppend(clock, s, commands, ids, command, id);
    AcceptedStep(clock, s, commands, ids, command, id);
    AppendAllStep(clock, s, commands, ids, command, id);
    SameModelsIfAccepted(s, commands, es);
    SameModelsIfAccepted(s, commands + [command], es + [e]);
    if BatchAccepted(s, es) {
      BatchLast(clock, s, PropagateMany(RecordAll(s, commands), es), es, e, commands, command);
    }
  }

  lemma SameModelsIfAccepted(s: Store, commands: seq<Command>, es: seq<Event>)
    ensures BatchAccepted(s, es) ==> BatchAccepted(RecordAll(s, commands), es)
  {
    if BatchAccepted(s, es) {
      SameModels(s, commands, es);
    }
  }

  lemma AppendAllStep(clock: Clock, s: Store, commands: seq<Command>, ids: seq<CertId>, command: Command, id: CertId)
    requires |ids| == |commands|
    ensures var before := AppendAll(clock, s, commands, ids);
            var last := Append(clock, before.0, command, id, PayloadOf(command));
            AppendAll(clock, s, commands + [command], ids + [id]) ==
            if before.1 then (last.0, last.1.None?) else (before.0, false)
  {
    hide Append;
    assert (commands + [command])[..|commands|] == commands && (ids + [id])[..|commands|] == ids;
  }

  lemma BatchLast(clock: Clock, s: Store, before: Store, es: seq<Event>, e: Event, commands: seq<Command>,
                  command: Command)
    requires BatchAccepted(s, es) && ToSynchronize(e)
    requires before == PropagateMany(RecordAll(s, commands), es)
    requires e == Event(|s.events| + |es| + 1, e.certificateId, clock(|s.events| + |es|), PayloadOf(command))
    requires BatchAccepted(s, es + [e]) <==> GroupAggregate(s, es + [e], e.certificateId).Ok?
    ensures var last := Append(clock, before, command, e.certificateId, PayloadOf(command));
            && (last.1.None? <==> BatchAccepted(s, es + [e]))
            && (last.1.None? ==> last.0 == PropagateMany(RecordAll(s, commands + [command]), es + [e]))
  {
    hide GroupAggregate, CertificatesOf, BatchAccepted, NewAttempts, Aggregate, Propagate;
    assert NewEvent(clock, before, e.certificateId, PayloadOf(command)) == e;
    LastAggregate(s, before, es, e);
    if BatchAccepted(s, es + [e]) {
      PropagateStep(s, before, es, e, commands, command);
    }
  }

  // ----- the times at which the events are created do not matter

  /** The same events, except for the times at which new ones were created. */
  ghost predicate Alike(a: seq<Event>, b: seq<Event>) {
    && |a| == |b|
    && forall i :: 0 <= i < |a| ==>
         a[i] == b[i] || (ToSynchronize(a[i]) && a[i].(createdAt := b[i].createdAt) == b[i])
  }

  lemma {:induction false} AlikeFold(a: seq<Event>, b: seq<Event>)
    requires Alike(a, b)
    ensures Fold(a) == Fold(b) && ToPersist(a) == ToPersist(b)
  {
    if a != [] {
      var n := |a| - 1;
      assert a[n].payload == b[n].payload && a[n].certificateId == b[n].certificateId;
      AlikeFold(a[..n], b[..n]);
    }
  }

  lemma {:induction false} AlikeLogs(a: seq<Event>, b: seq<Event>, id: CertId)
    requires Alike(a, b)
    ensures Alike(LogOf(a, id), LogOf(b, id))
  {
    if a != [] {
      AlikeLogs(a[..|a| - 1], b[..|b| - 1], id);
    }
  }

  lemma AlikeAggregates(clock: Clock, clock': Clock, s: Store, commands: seq<Command>, ids: seq<CertId>, id: CertId)
    requires Consistent(clock, s) && Consistent(clock', s) && NewCommands(commands) && |ids| == |commands|
    ensures GroupAggregate(s, BatchEvents(clock, s, commands, ids), id) ==
            GroupAggregate(s, BatchEvents(clock', s, commands, ids), id)
  {
    hide LogOf, Fold;
    var es, es' := BatchEvents(clock, s, commands, ids), BatchEvents(clock', s, commands, ids);
    assert Alike(es, es');
    AlikeLogs(es, es', id);
    AlikeFold(LogOf(s.events, id) + LogOf(es, id), LogOf(s.events, id) + LogOf(es', id));
    LogWithBatchSorted(clock, s, commands, ids, id);
    LogWithBatchSorted(clock', s, commands, ids, id);
    SortOfSorted(LogOf(s.events, id) + LogOf(es, id));
    SortOfSorted(LogOf(s.events, id) + LogOf(es', id));
  }

  lemma {:induction false} AlikeAttempts(attempts: Attempts, a: seq<Event>, b: seq<Event>)
    requires Alike(a, b)
    ensures NewAttempts(attempts, a) == NewAttempts(attempts, b)
  {
    if a != [] {
      var n := |a| - 1;
      assert a[n].id == b[n].id && a[n].payload == b[n].payload;
      AlikeAttempts(attempts, a[..n], b[..n]);
    }
  }

  ghost predicate SameButTimes(a: Store, b: Store) {
    && a.models == b.models && a.attempts == b.attempts
    && a.commands == b.commands && a.serial == b.serial && Alike(a.events, b.events)
  }

  lemma AlikePropagation(s: Store, es: seq<Event>, es': seq<Event>)
    requires Alike(es, es')
    requires forall id :: GroupAggregate(s, es, id) == GroupAggregate(s, es', id)
    ensures BatchAccepted(s, es) == BatchAccepted(s, es')
    ensures BatchAccepted(s, es) ==> SameButTimes(PropagateMany(s, es), PropagateMany(s, es'))
  {
    hide GroupAggregate, NewAttempts;
    assert CertificatesOf(es) == CertificatesOf(es') by {
      assert forall i :: 0 <= i < |es| ==> es[i].certificateId == es'[i].certificateId;
    }
    AlikeAttempts(s.attempts, es, es');
  }

  lemma RecordedGroups(s: Store, commands: seq<Command>, es: seq<Event>, id: CertId)
    ensures GroupAggregate(RecordAll(s, commands), es, id) == GroupAggregate(s, es, id)
  {
    hide FromEvents, LogOf;
  }

  lemma AlikeBatches(clock: Clock, clock': Clock, s: Store, commands: seq<Command>, ids: seq<CertId>)
    requires Consistent(clock, s) && Consistent(clock', s) && NewCommands(commands) && |ids| == |commands|
    ensures Batch(clock, s, commands, ids).1 == Batch(clock', s, commands, ids).1
    ensures Batch(clock, s, commands, ids).1 ==>
              SameButTimes(Batch(clock, s, commands, ids).0, Batch(clock', s, commands, ids).0)
  {
    hide GroupAggregate, BatchAccepted, PropagateMany, SameButTimes, Consistent;
    var es, es' := BatchEvents(clock, s, commands, ids), BatchEvents(clock', s, commands, ids);
    forall id
      ensures GroupAggregate(s, es, id) == GroupAggregate(s, es', id)
      ensures GroupAggregate(RecordAll(s, commands), es, id) == GroupAggregate(RecordAll(s, commands), es', id)
    {
      AlikeAggregates(clock, clock', s, commands, ids, id);
      RecordedGroups(s, commands, es, id);
      RecordedGroups(s, commands, es', id);
    }
    assert Alike(es, es');
    AlikePropagation(s, es, es');
    AlikePropagation(RecordAll(s, commands), es, es');
    SameModelsIfAccepted(s, commands, es);
  }

  /**
   * A batch whose events were created at one set of times and the same commands run one by one at
   * another are accepted together, and then agree on everything but those times.
   */
  lemma BatchRefinesSequenceAtOtherTimes(clock: Clock, clock': Clock, s: Store, commands: seq<Command>,
                                         ids: seq<CertId>)
    requires Consistent(clock, s) && Consistent(clock', s) && NewCommands(commands) && |ids| == |commands|
    ensures Batch(clock', s, commands, ids).1 == AppendAll(clock, s, commands, ids).1
    ensures Batch(clock', s, commands, ids).1 ==>
              SameButTimes(AppendAll(clock, s, commands, ids).0, Batch(clock', s, commands, ids).0)
  {
    hide Batch, AppendAll, SameButTimes, Consistent;
    BatchRefinesSequence(clock, s, commands, ids);
    AlikeBatches(clock, clock', s, commands, ids);
  }

  // ----- what batches keep

  lemma {:induction false} AppendAllConsistent(clock: Clock, s: Store, commands: seq<Command>, ids: seq<CertId>)
    requires Consistent(clock, s) && |ids| == |commands|
    requires forall i :: 0 <= i < |commands| && PayloadOf(commands[i]).Issued? ==> ids[i] <= s.serial
    ensures Consistent(clock, AppendAll(clock, s, commands, ids).0)
    ensures AppendAll(clock, s, commands, ids).0.serial == s.serial
  {
    if commands != [] {
      hide Consistent, Aggregate, Propagate;
      var n := |commands| - 1;
      AppendAllConsistent(clock, s, commands[..n], ids[..n]);
      var before := AppendAll(clock, s, commands[..n], ids[..n]);
      if before.1 {
        AppendConsistent(clock, before.0, commands[n], ids[n], PayloadOf(commands[n]));
        AppendKeepsSerial(clock, before.0, commands[n], ids[n], PayloadOf(commands[n]));
      }
    }
  }

  lemma AppendKeepsSerial(clock: Clock, s: Store, command: Command, id: CertId, payload: Payload)
    ensures Append(clock, s, command, id, payload).0.serial == s.serial
  {
    hide Aggregate;
  }

  lemma RecordAllConsistent(clock: Clock, s: Store, commands: seq<Command>)
    requires Consistent(clock, s)
    ensures Consistent(clock, RecordAll(s, commands))
  {
    hide FromEvents, LogOf;
  }

  /** A batch, accepted or not, keeps the read models in step with the log. */
  lemma BatchConsistent(clock: Clock, s: Store, commands: seq<Command>, ids: seq<CertId>)
    requires Consistent(clock, s) && NewCommands(commands) && |ids| == |commands|
    requires forall i :: 0 <= i < |commands| && PayloadOf(commands[i]).Issued? ==> ids[i] <= s.serial
    ensures Consistent(clock, Batch(clock, s, commands, ids).0)
  {
    hide Consistent, Batch, AppendAll;
    BatchRefinesSequence(clock, s, commands, ids);
    AppendAllConsistent(clock, s, commands, ids);
    RecordAllConsistent(clock, s, commands);
  }

  // ----- batches of issuances

  lemma {:induction false} FreshIssuancesAccepted(clock: Clock, s: Store, serial: nat, commands: seq<Command>)
    requires Consistent(clock, s) && serial + |commands| <= s.serial
    requires forall i :: 0 <= i < |commands| ==> commands[i].IssueCommand?
    requires forall id :: id > serial ==> LogOf(s.events, id) == []
    ensures var r := AppendAll(clock, s, commands, FreshIds(serial, |commands|));
            r.1 && forall id :: id > serial + |commands| ==> LogOf(r.0.events, id) == []
  {
    if commands != [] {
      hide Consistent, FromEvents, LogOf;
      var n := |commands| - 1;
      var ids := FreshIds(serial, |commands|);
      assert ids[..n] == FreshIds(serial, n) && ids[n] == serial + n + 1;
      FreshIssuancesAccepted(clock, s, serial, commands[..n]);
      var before := AppendAll(clock, s, commands[..n], ids[..n]).0;
      var e := NewEvent(clock, before, ids[n], PayloadOf(commands[n]));
      FirstEvent(before, e);
      var after := Append(clock, before, commands[n], ids[n], PayloadOf(commands[n])).0;
      assert after.events == before.events + [e];
      forall id | id > serial + |commands| ensures LogOf(after.events, id) == [] {
        LogOfAppend(before.events, e, id);
      }
    }
  }

  /** A batch of issuances is always accepted: none of its certificates has any events yet. */
  lemma BatchIssueAccepted(clock: Clock, s: Store, commands: seq<Command>)
    requires Consistent(clock, s) && forall i :: 0 <= i < |commands| ==> commands[i].IssueCommand?
    ensures BatchIssue(clock, s, commands).1
    ensures Consistent(clock, BatchIssue(clock, s, commands).0)
  {
    hide Batch, AppendAll, LogOf, FromEvents;
    var counted := s.(serial := s.serial + |commands|);
    var ids := FreshIds(s.serial, |commands|);
    SerialIsFree(s, counted.serial);
    assert Consistent(clock, counted);
    forall id | id > s.serial ensures LogOf(counted.events, id) == [] {
      LogOfEmpty(s.events, id);
    }
    FreshIssuancesAccepted(clock, counted, s.serial, commands);
    BatchRefinesSequence(clock, counted, commands, ids);
    BatchConsistent(clock, counted, commands, ids);
  }
}
