/** How requests and records change the logs of all certificates. */
module SyncStore {
  import opened Wrappers
  import opened CertificateEvents
  import opened CertificateAggregate
  import opened CertificateStore
  import opened CertificateStoreFacts
  import opened CertificateBatch
  import opened SyncProtocol
  import opened SyncLog

  ghost predicate AllSound(env: Env, s: Store) {
    Consistent(env.clock, s) && forall id :: Sound(env.max, s.attempts, LogOf(s.events, id))
  }

  /** Nothing but new events, none of them attempted yet. */
  ghost predicate OnlyGrew(s: Store, s': Store) {
    forall id :: Grew(s.attempts, LogOf(s.events, id), s'.attempts, LogOf(s'.events, id))
  }

  ghost predicate Numbered(events: seq<Event>) {
    forall i :: 0 <= i < |events| ==> events[i].id == i + 1
  }

  // ----- where the events of a log are stored

  ghost predicate StoredAt(events: seq<Event>, e: Event) {
    1 <= e.id <= |events| && events[e.id - 1] == e
  }

  lemma {:induction false} LogIncreases(events: seq<Event>, id: CertId)
    requires Numbered(events)
    ensures Increasing(LogOf(events, id))
    ensures forall i :: 0 <= i < |LogOf(events, id)| ==> 1 <= LogOf(events, id)[i].id <= |events|
  {
    if events != [] {
      LogIncreases(events[..|events| - 1], id);
    }
  }

  lemma {:induction false} LogMember(events: seq<Event>, id: CertId, e: Event)
    requires Numbered(events)
    ensures e in LogOf(events, id) <==> e.certificateId == id && StoredAt(events, e)
  {
    if events != [] {
      LogMember(events[..|events| - 1], id, e);
    }
  }

  lemma StoredLog(clock: Clock, s: Store, id: CertId)
    requires LogInOrder(clock, s)
    ensures Increasing(LogOf(s.events, id))
    ensures forall i :: 0 <= i < |LogOf(s.events, id)| ==> 1 <= LogOf(s.events, id)[i].id <= |s.events|
    ensures forall e :: e in LogOf(s.events, id) <==> e.certificateId == id && StoredAt(s.events, e)
  {
    hide LogOf;
    LogIncreases(s.events, id);
    forall e ensures e in LogOf(s.events, id) <==> e.certificateId == id && StoredAt(s.events, e) {
      LogMember(s.events, id, e);
    }
  }

  lemma SameIsGrown(clock: Clock, s: Store, s': Store)
    requires LogInOrder(clock, s) && s.events == s'.events && s.attempts == s'.attempts
    ensures OnlyGrew(s, s')
  {
    hide LogOf;
    forall id ensures Grew(s.attempts, LogOf(s.events, id), s'.attempts, LogOf(s'.events, id)) {
      StoredLog(clock, s, id);
    }
  }

  lemma OnlyGrewTransitive(s: Store, s': Store, s'': Store)
    requires OnlyGrew(s, s') && OnlyGrew(s', s'')
    ensures OnlyGrew(s, s'')
  {
    hide LogOf, Grew;
    forall id ensures Grew(s.attempts, LogOf(s.events, id), s''.attempts, LogOf(s''.events, id)) {
      GrewTransitive(s.attempts, LogOf(s.events, id), s'.attempts, LogOf(s'.events, id), s''.attempts,
                     LogOf(s''.events, id));
    }
  }

  lemma GrowthIsAllSound(env: Env, s: Store, s': Store)
    requires AllSound(env, s) && OnlyGrew(s, s') && Consistent(env.clock, s')
    ensures AllSound(env, s')
  {
    hide LogOf, Grew, Sound, Consistent;
    forall id ensures Sound(env.max, s'.attempts, LogOf(s'.events, id)) {
      GrowthIsSound(env.max, s.attempts, LogOf(s.events, id), s'.attempts, LogOf(s'.events, id));
    }
  }

  // ----- requests

  lemma PropagateNewEvent(clock: Clock, s: Store, id: CertId, payload: Payload, c: Certificate)
    requires LogInOrder(clock, s) && NewPayload(payload)
    ensures OnlyGrew(s, Propagate(s, NewEvent(clock, s, id, payload), c))
  {
    hide LogOf, UpdateAttempt;
    var e := NewEvent(clock, s, id, payload);
    var s' := Propagate(s, e, c);
    NothingToUpdate(s.attempts[e.id := Attempt(0, false)], false);
    assert s'.attempts == s.attempts[e.id := Attempt(0, false)] && s'.events == s.events + [e];
    hide Propagate;
    forall other ensures Grew(s.attempts, LogOf(s.events, other), s'.attempts, LogOf(s'.events, other)) {
      LogIncreases(s.events, other);
      LogOfAppend(s.events, e, other);
    }
  }

  lemma AppendGrows(clock: Clock, s: Store, command: Command, id: CertId, payload: Payload)
    requires LogInOrder(clock, s) && NewPayload(payload)
    ensures OnlyGrew(s, Append(clock, s, command, id, payload).0)
  {
    hide OnlyGrew, Aggregate, Propagate;
    var recorded := Record(s, command);
    var e := NewEvent(clock, s, id, payload);
    SameIsGrown(clock, s, recorded);
    SameAggregate(s, recorded, e);
    if Aggregate(s, e).Ok? {
      assert LogInOrder(clock, recorded);
      PropagateNewEvent(clock, recorded, id, payload, Aggregate(s, e).value);
      OnlyGrewTransitive(s, recorded, Append(clock, s, command, id, payload).0);
    }
  }

  lemma {:induction false} AppendAllGrows(clock: Clock, s: Store, commands: seq<Command>, ids: seq<CertId>)
    requires Consistent(clock, s) && NewCommands(commands) && |ids| == |commands|
    requires forall i :: 0 <= i < |commands| && PayloadOf(commands[i]).Issued? ==> ids[i] <= s.serial
    ensures OnlyGrew(s, AppendAll(clock, s, commands, ids).0)
  {
    hide OnlyGrew, Append;
    if commands == [] {
      SameIsGrown(clock, s, s);
    } else {
      var n := |commands| - 1;
      AppendAllGrows(clock, s, commands[..n], ids[..n]);
      AppendAllConsistent(clock, s, commands[..n], ids[..n]);
      var before := AppendAll(clock, s, commands[..n], ids[..n]);
      if before.1 {
        AppendGrows(clock, before.0, commands[n], ids[n], PayloadOf(commands[n]));
        OnlyGrewTransitive(s, before.0, Append(clock, before.0, commands[n], ids[n], PayloadOf(commands[n])).0);
      }
    }
  }

  lemma BatchGrows(clock: Clock, s: Store, commands: seq<Command>, ids: seq<CertId>)
    requires Consistent(clock, s) && NewCommands(commands) && |ids| == |commands|
    requires forall i :: 0 <= i < |commands| && PayloadOf(commands[i]).Issued? ==> ids[i] <= s.serial
    ensures OnlyGrew(s, Batch(clock, s, commands, ids).0) && Consistent(clock, Batch(clock, s, commands, ids).0)
  {
    BatchRefinesSequence(clock, s, commands, ids);
    BatchConsistent(clock, s, commands, ids);
    if Batch(clock, s, commands, ids).1 {
      AppendAllGrows(clock, s, commands, ids);
    } else {
      SameIsGrown(clock, s, Batch(clock, s, commands, ids).0);
    }
  }

  lemma SerialGrows(clock: Clock, s: Store, serial: nat)
    requires Consistent(clock, s) && s.serial <= serial
    ensures Consistent(clock, s.(serial := serial)) && OnlyGrew(s, s.(serial := serial))
  {
    SerialIsFree(s, serial);
    SameIsGrown(clock, s, s.(serial := serial));
  }

  /** Whatever is requested, nothing but new events comes of it, and the read models stay in step. */
  lemma {:induction false} ServeGrows(clock: Clock, s: Store, r: Request)
    requires Consistent(clock, s)
    ensures OnlyGrew(s, Serve(clock, s, r)) && Consistent(clock, Serve(clock, s, r))
  {
    hide OnlyGrew, Consistent, Append, Batch;
    match r
    case IssueOne(command) =>
      var counted := s.(serial := s.serial + 1);
      SerialGrows(clock, s, s.serial + 1);
      AppendOne(clock, counted, command, s.serial + 1, PayloadOf(command));
      OnlyGrewTransitive(s, counted, Serve(clock, s, r));
    case OnOne(command) =>
      AppendOne(clock, s, command, command.certificateId, PayloadOf(command));
    case IssueMany(commands) =>
      var counted := s.(serial := s.serial + |commands|);
      SerialGrows(clock, s, s.serial + |commands|);
      BatchGrows(clock, counted, commands, FreshIds(s.serial, |commands|));
      OnlyGrewTransitive(s, counted, Serve(clock, s, r));
    case OnMany(commands) =>
      BatchGrows(clock, s, commands, TargetsOf(commands));
  }

  lemma AppendOne(clock: Clock, s: Store, command: Command, id: CertId, payload: Payload)
    requires Consistent(clock, s) && NewPayload(payload) && (payload.Issued? ==> id <= s.serial)
    ensures OnlyGrew(s, Append(clock, s, command, id, payload).0)
            && Consistent(clock, Append(clock, s, command, id, payload).0)
  {
    AppendGrows(clock, s, command, id, payload);
    AppendConsistent(clock, s, command, id, payload);
  }

  lemma {:induction false} ServeAllGrows(clock: Clock, s: Store, requests: seq<Request>)
    requires Consistent(clock, s)
    ensures OnlyGrew(s, ServeAll(clock, s, requests)) && Consistent(clock, ServeAll(clock, s, requests))
  {
    hide OnlyGrew, Consistent, Serve;
    if requests == [] {
      assert OnlyGrew(s, s) by { SerialGrows(clock, s, s.serial); }
    } else {
      var n := |requests| - 1;
      ServeAllGrows(clock, s, requests[..n]);
      ServeGrows(clock, ServeAll(clock, s, requests[..n]), requests[n]);
      OnlyGrewTransitive(s, ServeAll(clock, s, requests[..n]), ServeAll(clock, s, requests));
    }
  }

  // ----- records

  /** A payload that records the outcome of sending an event. */
  ghost predicate RecordOf(payload: Payload, e: Event, error: bool) {
    && PersistedEventId(payload) == [e.id]
    && error == payload.PersistError?
    && (e.payload.Issued? && !error ==> payload.IssuancePersisted?)
  }

  /** The log of every other certificate stays as it is. */
  ghost predicate OthersUntouched(s: Store, s': Store, id: CertId) {
    forall other :: other != id ==>
      LogOf(s'.events, other) == LogOf(s.events, other) && Agree(s.attempts, s'.attempts, LogOf(s.events, other))
  }

  lemma {:induction false} OwedAtLeastOne(a: Attempts, log: seq<Event>, e: Event)
    requires e in log && ToSynchronize(e) && !Done(a, e.id)
    ensures Owed(a, log) >= 1
  {
    DeliveredAndOwed(a, log);
  }

  lemma RecordAccepted(env: Env, s: Store, e: Event, payload: Payload, error: bool)
    requires AllSound(env, s) && RecordOf(payload, e, error)
    requires Ready(env.max, s.attempts, LogOf(s.events, e.certificateId), e)
    ensures Aggregate(s, NewEvent(env.clock, s, e.certificateId, payload)).Ok?
  {
    hide LogOf, Owed, InOrder, Bounded, Identified, HasRows;
    var log := LogOf(s.events, e.certificateId);
    var r := NewEvent(env.clock, s, e.certificateId, payload);
    OwedAtLeastOne(s.attempts, log, e);
    StoredLogOwes(env.clock, s, e.certificateId);
    StoredLog(env.clock, s, e.certificateId);
    assert Sorted(log + [r]) by {
      forall i | 0 <= i < |log| ensures log[i].createdAt <= r.createdAt {
        assert log[i] in log;
        assert s.events[log[i].id - 1].createdAt == env.clock(log[i].id - 1);
      }
    }
    FromSortedEvents(log);
    FromSortedEvents(log + [r]);
    assert (log + [r])[..|log|] == log;
    assert ToPersist(log + [r]) == ToPersist(log) + SyncWeight(r);
    assert Sound(env.max, s.attempts, log);
  }

  lemma RecordOne(env: Env, s: Store, e: Event, payload: Payload, error: bool)
    requires AllSound(env, s) && RecordOf(payload, e, error)
    requires Ready(env.max, s.attempts, LogOf(s.events, e.certificateId), e)
    ensures var r := Persist(env.clock, s, e.certificateId, payload);
            && r.1 == None && Consistent(env.clock, r.0)
            && Recorded(s.attempts, LogOf(s.events, e.certificateId),
                        r.0.attempts, LogOf(r.0.events, e.certificateId), e, error)
            && OthersUntouched(s, r.0, e.certificateId)
  {
    hide Aggregate, Sound, Ready, Recorded, OthersUntouched, Consistent;
    var id := e.certificateId;
    RecordAccepted(env, s, e, payload, error);
    var recorded := Record(s, RecordCommand(payload));
    var r := NewEvent(env.clock, s, id, payload);
    SameAggregate(s, recorded, r);
    AppendConsistent(env.clock, s, RecordCommand(payload), id, payload);
    RecordLogs(env, s, e, payload, error, Aggregate(s, r).value, recorded.commands);
  }

  lemma PropagateRecord(s: Store, e: Event, r: Event, error: bool, c: Certificate)
    requires RecordOf(r.payload, e, error) && e.id in s.attempts
    ensures Propagate(s, r, c).events == s.events + [r]
    ensures Propagate(s, r, c).attempts == s.attempts[e.id := Attempt(s.attempts[e.id].count + 1, error)]
  {
  }

  lemma RecordLogs(env: Env, s: Store, e: Event, payload: Payload, error: bool, c: Certificate, commands: seq<Command>)
    requires AllSound(env, s) && RecordOf(payload, e, error)
    requires Ready(env.max, s.attempts, LogOf(s.events, e.certificateId), e)
    ensures var s' := Propagate(s.(commands := commands), NewEvent(env.clock, s, e.certificateId, payload), c);
            && Recorded(s.attempts, LogOf(s.events, e.certificateId),
                        s'.attempts, LogOf(s'.events, e.certificateId), e, error)
            && OthersUntouched(s, s', e.certificateId)
  {
    hide LogOf, Sound, ModelsAgree, Propagate;
    var id := e.certificateId;
    var r := NewEvent(env.clock, s, id, payload);
    var s' := Propagate(s.(commands := commands), r, c);
    StoredLog(env.clock, s, id);
    assert e in LogOf(s.events, id) && e.id in s.attempts;
    PropagateRecord(s.(commands := commands), e, r, error, c);
    LogOfAppend(s.events, r, id);
    assert HasAttempts(s) && r.id == |s.events| + 1;
    forall other | other != id
      ensures LogOf(s'.events, other) == LogOf(s.events, other)
      ensures Agree(s.attempts, s'.attempts, LogOf(s.events, other))
    {
      LogOfAppend(s.events, r, other);
      OtherIds(env.clock, s, e, other);
    }
  }

  lemma OtherIds(clock: Clock, s: Store, e: Event, other: CertId)
    requires LogInOrder(clock, s) && e in LogOf(s.events, e.certificateId) && other != e.certificateId
    ensures forall i :: 0 <= i < |LogOf(s.events, other)| ==> LogOf(s.events, other)[i].id != e.id
  {
    hide LogOf;
    StoredLog(clock, s, e.certificateId);
    StoredLog(clock, s, other);
    forall i | 0 <= i < |LogOf(s.events, other)| ensures LogOf(s.events, other)[i].id != e.id {
      assert LogOf(s.events, other)[i] in LogOf(s.events, other);
    }
  }

  /** Recording the outcome of a ready event keeps every log sound. */
  lemma RecordIsAllSound(env: Env, s: Store, s': Store, e: Event, error: bool)
    requires AllSound(env, s) && Consistent(env.clock, s')
    requires Ready(env.max, s.attempts, LogOf(s.events, e.certificateId), e)
    requires Recorded(s.attempts, LogOf(s.events, e.certificateId),
                      s'.attempts, LogOf(s'.events, e.certificateId), e, error)
    requires OthersUntouched(s, s', e.certificateId)
    ensures AllSound(env, s')
  {
    hide LogOf, Sound, Ready, Recorded, Consistent;
    forall id ensures Sound(env.max, s'.attempts, LogOf(s'.events, id)) {
      var log, log' := LogOf(s.events, id), LogOf(s'.events, id);
      if id == e.certificateId {
        RecordIsSound(env.max, s.attempts, log, s'.attempts, log', e, error);
      } else {
        UntouchedGrew(env, s, s', id);
        GrowthIsSound(env.max, s.attempts, log, s'.attempts, log');
      }
    }
  }

  lemma UntouchedGrew(env: Env, s: Store, s': Store, id: CertId)
    requires Sound(env.max, s.attempts, LogOf(s.events, id))
    requires LogOf(s'.events, id) == LogOf(s.events, id) && Agree(s.attempts, s'.attempts, LogOf(s.events, id))
    ensures Grew(s.attempts, LogOf(s.events, id), s'.attempts, LogOf(s'.events, id))
  {
  }
}
