/** What sending a block of events to the blockchain keeps, whatever the blockchain answers. */
module SyncBlock {
  import opened Wrappers
  import opened CertificateEvents
  import opened CertificateStore
  import opened CertificateStoreFacts
  import opened CertificateBatch
  import opened BatchQueue
  import opened SyncProtocol
  import opened SyncLog
  import opened SyncLine
  import opened SyncStore
  import opened SyncHistory

  /** The rows at the start of a pass, the events that the pass selected, and whether all that it sends is accepted. */
  datatype Context = Context(env: Env, start: Attempts, selected: seq<Event>, well: bool)

  /** Who still waits: events popped but not sent, then events queued, unless the certificate has failed. */
  function LineOf(todo: seq<Event>, q: Queue, failed: seq<CertId>, id: CertId): seq<Event> {
    if id in failed then [] else LogOf(todo, id) + Waiting(q, id)
  }

  ghost predicate StandingOf(x: Context, s: Store, todo: seq<Event>, q: Queue, failed: seq<CertId>, id: CertId) {
    && Standing(x.env.max, x.start, s.attempts, LogOf(s.events, id), LogOf(x.selected, id), LineOf(todo, q, failed, id))
    && forall i :: 0 <= i < |LogOf(x.selected, id)| ==> LogOf(x.selected, id)[i] in LogOf(s.events, id)
  }

  ghost predicate AllStanding(x: Context, s: Store, todo: seq<Event>, q: Queue, failed: seq<CertId>) {
    forall id :: StandingOf(x, s, todo, q, failed, id)
  }

  /** At most one event of each certificate, and none of a failed one. */
  ghost predicate OneEach(todo: seq<Event>, failed: seq<CertId>) {
    forall id :: |LogOf(todo, id)| <= if id in failed then 0 else 1
  }

  /** What the blockchain accepted of each certificate is what is recorded as delivered, in that order. */
  ghost predicate ChainAgrees(w: World) {
    forall id :: LogOf(w.chain.accepted, id) == Delivered(w.store.attempts, LogOf(w.store.events, id))
  }

  /** An event's row of attempts; an event without a row has had none. */
  function RowOf(a: Attempts, id: nat): Attempt {
    if id in a then a[id] else Attempt(0, false)
  }

  /** Events are only ever appended; a row changes only by being counted up, and without an error if all went well. */
  ghost predicate Advanced(s: Store, s': Store, well: bool) {
    s.events <= s'.events && forall id :: RowMoved(RowOf(s.attempts, id), RowOf(s'.attempts, id), well)
  }

  ghost predicate RowMoved(r: Attempt, r': Attempt, well: bool) {
    r' == r || (r.count < r'.count && (well ==> !r'.error))
  }

  /** The blockchain accepts every block from the given call on. */
  ghost predicate Accepting(env: Env, calls: nat) {
    forall k: nat :: calls <= k ==> env.script(k).accepted
  }

  ghost predicate HasId(events: seq<Event>, id: nat) {
    exists i :: 0 <= i < |events| && events[i].id == id
  }

  /** The rows of all events but the given ones are as they were. */
  ghost predicate Spared(events: seq<Event>, s: Store, s': Store) {
    forall id :: !HasId(events, id) ==> RowOf(s'.attempts, id) == RowOf(s.attempts, id)
  }

  /** Events have been appended, and no row has changed. */
  ghost predicate Extended(s: Store, s': Store) {
    s.events <= s'.events && forall id :: RowOf(s'.attempts, id) == RowOf(s.attempts, id)
  }

  /**
   * The store has advanced, the rows of events that were not selected are as they were, and the logs of
   * certificates with no selected event have only grown.
   */
  ghost predicate Moved(x: Context, s: Store, s': Store) {
    && Advanced(s, s', x.well)
    && Spared(x.selected, s, s')
    && forall id :: LogOf(x.selected, id) == [] ==>
         Grew(s.attempts, LogOf(s.events, id), s'.attempts, LogOf(s'.events, id))
  }

  ghost predicate Good(x: Context, w: World, todo: seq<Event>, q: Queue, failed: seq<CertId>) {
    && !w.thrown && AllSound(x.env, w.store) && ChainAgrees(w) && HistoryFits(x.env, w)
    && (x.well ==> Accepting(x.env, w.chain.calls))
    && AllStanding(x, w.store, todo, q, failed) && OneEach(todo, failed)
  }

  // ----- one event

  lemma LogOfCons(e: Event, rest: seq<Event>, id: CertId)
    ensures LogOf([e] + rest, id) == (if e.certificateId == id then [e] else []) + LogOf(rest, id)
  {
    LogOfConcat([e], rest, id);
    LogOfAppend([], e, id);
    assert [] + [e] == [e];
  }

  lemma FirstIsReady(x: Context, s: Store, e: Event, todo: seq<Event>, q: Queue, failed: seq<CertId>)
    requires AllSound(x.env, s) && AllStanding(x, s, [e] + todo, q, failed) && OneEach([e] + todo, failed)
    ensures e.certificateId !in failed
    ensures LineOf([e] + todo, q, failed, e.certificateId) == [e] + LineOf(todo, q, failed, e.certificateId)
    ensures Ready(x.env.max, s.attempts, LogOf(s.events, e.certificateId), e)
    ensures e in LogOf(x.selected, e.certificateId)
    ensures OneEach(todo, failed + [e.certificateId])
  {
    hide LogOf, InLine, Ready, Settled, AllSound;
    var id := e.certificateId;
    LogOfCons(e, todo, id);
    assert |LogOf([e] + todo, id)| <= if id in failed then 0 else 1;
    var line := LineOf([e] + todo, q, failed, id);
    assert line == [e] + LineOf(todo, q, failed, id);
    assert StandingOf(x, s, [e] + todo, q, failed, id);
    HeadIsReady(x.env.max, x.start, s.attempts, LogOf(s.events, id), line);
    assert line[0] in LogOf(x.selected, id);
    forall other ensures |LogOf(todo, other)| <= if other in failed + [id] then 0 else 1 {
      LogOfCons(e, todo, other);
      assert |LogOf([e] + todo, other)| <= if other in failed then 0 else 1;
    }
  }

  lemma OthersStand(x: Context, s: Store, s': Store, todo: seq<Event>, todo': seq<Event>, q: Queue, failed: seq<CertId>,
                    failed': seq<CertId>, id: CertId)
    requires AllSound(x.env, s) && StandingOf(x, s, todo, q, failed, id)
    requires LineOf(todo', q, failed', id) == LineOf(todo, q, failed, id)
    requires Grew(s.attempts, LogOf(s.events, id), s'.attempts, LogOf(s'.events, id))
    ensures StandingOf(x, s', todo', q, failed', id)
  {
    hide LogOf, InLine, Settled, Sound, Grew, LineOf;
    GrowthKeepsStanding(x.env.max, x.start, s.attempts, LogOf(s.events, id), s'.attempts, LogOf(s'.events, id),
                        LogOf(x.selected, id), LineOf(todo, q, failed, id));
  }

  /** The outcome of the first event in line has been recorded. */
  ghost predicate FirstRecorded(x: Context, s: Store, s': Store, e: Event, error: bool) {
    && AllSound(x.env, s)
    && Ready(x.env.max, s.attempts, LogOf(s.events, e.certificateId), e)
    && Recorded(s.attempts, LogOf(s.events, e.certificateId), s'.attempts, LogOf(s'.events, e.certificateId), e, error)
    && OthersUntouched(s, s', e.certificateId)
    && Consistent(x.env.clock, s')
  }

  lemma RecordStands(x: Context, s: Store, s': Store, e: Event, error: bool, todo: seq<Event>, q: Queue,
                     failed: seq<CertId>)
    requires FirstRecorded(x, s, s', e, error)
    requires AllStanding(x, s, [e] + todo, q, failed) && OneEach([e] + todo, failed)
    ensures AllStanding(x, s', todo, q, if error then failed + [e.certificateId] else failed)
  {
    hide LogOf, InLine, Settled, Sound, LineOf, Ready, Recorded, Standing, Consistent, Agree;
    var id := e.certificateId;
    FirstIsReady(x, s, e, todo, q, failed);
    var failed' := if error then failed + [id] else failed;
    forall other ensures StandingOf(x, s', todo, q, failed', other) {
      assert StandingOf(x, s, [e] + todo, q, failed, other);
      if other == id {
        FirstStands(x, s, s', e, error, todo, q, failed);
      } else {
        UntouchedGrew(x.env, s, s', other);
        SameLine(e, todo, q, failed, other);
        OthersStand(x, s, s', [e] + todo, todo, q, failed, failed', other);
      }
    }
  }

  lemma SameLine(e: Event, todo: seq<Event>, q: Queue, failed: seq<CertId>, other: CertId)
    requires other != e.certificateId
    ensures LineOf([e] + todo, q, failed, other) == LineOf(todo, q, failed, other)
    ensures LineOf([e] + todo, q, failed, other) == LineOf(todo, q, failed + [e.certificateId], other)
  {
    hide LogOf, Waiting;
    LogOfCons(e, todo, other);
    assert other in failed + [e.certificateId] <==> other in failed;
  }

  lemma FirstStands(x: Context, s: Store, s': Store, e: Event, error: bool, todo: seq<Event>, q: Queue,
                    failed: seq<CertId>)
    requires FirstRecorded(x, s, s', e, error)
    requires StandingOf(x, s, [e] + todo, q, failed, e.certificateId)
    requires LineOf([e] + todo, q, failed, e.certificateId) == [e] + LineOf(todo, q, failed, e.certificateId)
    ensures StandingOf(x, s', todo, q, if error then failed + [e.certificateId] else failed, e.certificateId)
  {
    hide LogOf, Standing, Recorded, Ready;
    var id := e.certificateId;
    var log, log', selected := LogOf(s.events, id), LogOf(s'.events, id), LogOf(x.selected, id);
    var rest := LineOf(todo, q, failed, id);
    assert Sound(x.env.max, s.attempts, log);
    if error {
      assert LineOf(todo, q, failed + [id], id) == [];
      FailureKeepsStanding(x.env.max, x.start, s.attempts, log, s'.attempts, log', selected, e, rest);
    } else {
      SuccessKeepsStanding(x.env.max, x.start, s.attempts, log, s'.attempts, log', selected, e, rest);
    }
  }

  lemma RecordedDeliveries(x: Context, s: Store, s': Store, e: Event, error: bool, id: CertId)
    requires FirstRecorded(x, s, s', e, error)
    ensures Delivered(s'.attempts, LogOf(s'.events, id)) ==
            Delivered(s.attempts, LogOf(s.events, id)) + if e.certificateId == id && !error then [e] else []
  {
    hide LogOf, Delivered, Sound, Recorded, Ready, Consistent;
    var log, log' := LogOf(s.events, id), LogOf(s'.events, id);
    assert Sound(x.env.max, s.attempts, log);
    if e.certificateId == id {
      RecordDelivers(x.env.max, s.attempts, log, s'.attempts, log', e, error);
    } else {
      AgreeDelivers(s.attempts, s'.attempts, log);
    }
  }

  lemma AppendAdvances(clock: Clock, s: Store, command: Command, id: CertId, payload: Payload)
    requires LogInOrder(clock, s) && HasAttempts(s)
    ensures Advanced(s, Append(clock, s, command, id, payload).0, !payload.PersistError?)
  {
    hide Aggregate;
  }

  /** Recording the first event in line: it is accepted, and everything else stays in place. */
  lemma RecordFirst(x: Context, s: Store, e: Event, payload: Payload, error: bool, todo: seq<Event>, q: Queue,
                    failed: seq<CertId>)
    requires AllSound(x.env, s) && AllStanding(x, s, [e] + todo, q, failed) && OneEach([e] + todo, failed)
    requires RecordOf(payload, e, error) && (error ==> !x.well)
    ensures var r := Persist(x.env.clock, s, e.certificateId, payload);
            var failed' := if error then failed + [e.certificateId] else failed;
            && r.1 == None && AllSound(x.env, r.0) && AllStanding(x, r.0, todo, q, failed')
            && OneEach(todo, failed') && Moved(x, s, r.0)
            && forall id :: Delivered(r.0.attempts, LogOf(r.0.events, id)) ==
                 Delivered(s.attempts, LogOf(s.events, id)) + if e.certificateId == id && !error then [e] else []
  {
    hide LogOf, Delivered, Sound, Recorded, Ready, StandingOf, OthersUntouched, Persist, RecordOf;
    var s' := Persist(x.env.clock, s, e.certificateId, payload).0;
    FirstIsReady(x, s, e, todo, q, failed);
    RecordOne(x.env, s, e, payload, error);
    RecordIsAllSound(x.env, s, s', e, error);
    RecordStands(x, s, s', e, error, todo, q, failed);
    assert FirstRecorded(x, s, s', e, error);
    RecordMoves(x, s, e, payload, error);
    forall id
      ensures Delivered(s'.attempts, LogOf(s'.events, id)) ==
              Delivered(s.attempts, LogOf(s.events, id)) + if e.certificateId == id && !error then [e] else []
    {
      RecordedDeliveries(x, s, s', e, error, id);
    }
    assert OneEach(todo, failed) by {
      forall id ensures |LogOf(todo, id)| <= if id in failed then 0 else 1 {
        assert |LogOf(todo, id)| <= if id in failed + [e.certificateId] then 0 else 1;
      }
    }
  }

  lemma RecordMoves(x: Context, s: Store, e: Event, payload: Payload, error: bool)
    requires AllSound(x.env, s) && RecordOf(payload, e, error) && (error ==> !x.well)
    requires e in LogOf(x.selected, e.certificateId)
    requires OthersUntouched(s, Persist(x.env.clock, s, e.certificateId, payload).0, e.certificateId)
    ensures Moved(x, s, Persist(x.env.clock, s, e.certificateId, payload).0)
  {
    hide LogOf, Append, Sound, Agree, Spared;
    var s' := Persist(x.env.clock, s, e.certificateId, payload).0;
    AppendAdvances(x.env.clock, s, RecordCommand(payload), e.certificateId, payload);
    AdvancedAnyway(s, s', !error, x.well);
    RecordSpares(x, s, e, payload, error);
    forall id | LogOf(x.selected, id) == []
      ensures Grew(s.attempts, LogOf(s.events, id), s'.attempts, LogOf(s'.events, id))
    {
      UntouchedGrew(x.env, s, s', id);
    }
  }

  lemma AppendSpares(clock: Clock, s: Store, command: Command, id: CertId, payload: Payload, eventId: nat)
    requires LogInOrder(clock, s) && HasAttempts(s) && eventId !in PersistedEventId(payload)
    ensures RowOf(Append(clock, s, command, id, payload).0.attempts, eventId) == RowOf(s.attempts, eventId)
  {
    hide Aggregate;
  }

  lemma RecordSpares(x: Context, s: Store, e: Event, payload: Payload, error: bool)
    requires AllSound(x.env, s) && RecordOf(payload, e, error) && e in LogOf(x.selected, e.certificateId)
    ensures Spared(x.selected, s, Persist(x.env.clock, s, e.certificateId, payload).0)
  {
    hide LogOf, Append, Sound, RowOf;
    SelectedHasId(x.selected, e.certificateId, e);
    forall id | !HasId(x.selected, id)
      ensures RowOf(Persist(x.env.clock, s, e.certificateId, payload).0.attempts, id) == RowOf(s.attempts, id)
    {
      AppendSpares(x.env.clock, s, RecordCommand(payload), e.certificateId, payload, id);
    }
  }

  lemma {:induction false} SelectedHasId(events: seq<Event>, id: CertId, e: Event)
    requires e in LogOf(events, id)
    ensures HasId(events, e.id)
  {
    var n := |events| - 1;
    if e in LogOf(events[..n], id) {
      SelectedHasId(events[..n], id, e);
      var i :| 0 <= i < n && events[..n][i].id == e.id;
      assert events[i].id == e.id;
    } else {
      assert events[n].id == e.id;
    }
  }

  lemma ExtendedMoves(x: Context, s: Store, s': Store)
    requires Extended(s, s')
    ensures Advanced(s, s', x.well) && Spared(x.selected, s, s')
  {
  }

  lemma AdvancedAnyway(s: Store, s': Store, well: bool, well': bool)
    requires Advanced(s, s', well) && (well' ==> well)
    ensures Advanced(s, s', well')
  {
    forall id ensures RowMoved(RowOf(s.attempts, id), RowOf(s'.attempts, id), well') {
      assert RowMoved(RowOf(s.attempts, id), RowOf(s'.attempts, id), well);
    }
  }

  // ----- all events of a block

  /** What recording a block leaves behind: the rest still stands, and the deliveries have grown by the given events. */
  ghost predicate Left(x: Context, s: Store, s': Store, delivered: seq<Event>, rest: seq<Event>, q: Queue,
                       failed: seq<CertId>)
  {
    && AllSound(x.env, s') && AllStanding(x, s', rest, q, failed) && OneEach(rest, failed) && Moved(x, s, s')
    && forall id :: Delivered(s'.attempts, LogOf(s'.events, id)) ==
         Delivered(s.attempts, LogOf(s.events, id)) + LogOf(delivered, id)
  }

  lemma LeftUnchanged(x: Context, s: Store, rest: seq<Event>, q: Queue, failed: seq<CertId>)
    requires AllSound(x.env, s) && AllStanding(x, s, rest, q, failed) && OneEach(rest, failed)
    ensures Left(x, s, s, [], rest, q, failed)
  {
    hide Delivered, AllSound, AllStanding, OneEach, Moved;
    MovedNowhere(x, s);
    forall id ensures LogOf([], id) == [] { }
  }

  lemma MovedNowhere(x: Context, s: Store)
    requires AllSound(x.env, s)
    ensures Moved(x, s, s)
  {
    hide LogOf;
    forall id ensures Grew(s.attempts, LogOf(s.events, id), s.attempts, LogOf(s.events, id)) {
      assert Sound(x.env.max, s.attempts, LogOf(s.events, id));
    }
  }

  lemma AdvancedTransitive(s: Store, s': Store, s'': Store, well: bool)
    requires Advanced(s, s', well) && Advanced(s', s'', well)
    ensures Advanced(s, s'', well)
  {
    forall id ensures RowMoved(RowOf(s.attempts, id), RowOf(s''.attempts, id), well) {
      assert RowMoved(RowOf(s.attempts, id), RowOf(s'.attempts, id), well);
      assert RowMoved(RowOf(s'.attempts, id), RowOf(s''.attempts, id), well);
    }
  }

  lemma MovedTransitive(x: Context, s: Store, s': Store, s'': Store)
    requires Moved(x, s, s') && Moved(x, s', s'')
    ensures Moved(x, s, s'')
  {
    hide LogOf, Grew, Advanced, RowOf;
    AdvancedTransitive(s, s', s'', x.well);
    forall id | LogOf(x.selected, id) == []
      ensures Grew(s.attempts, LogOf(s.events, id), s''.attempts, LogOf(s''.events, id))
    {
      GrewTransitive(s.attempts, LogOf(s.events, id), s'.attempts, LogOf(s'.events, id), s''.attempts,
                     LogOf(s''.events, id));
    }
  }

  lemma LeftAfterSuccess(x: Context, s: Store, s': Store, s'': Store, e: Event, events: seq<Event>, rest: seq<Event>,
                         q: Queue, failed: seq<CertId>)
    requires Moved(x, s, s') && Left(x, s', s'', events, rest, q, failed)
    requires forall id :: Delivered(s'.attempts, LogOf(s'.events, id)) ==
               Delivered(s.attempts, LogOf(s.events, id)) + if e.certificateId == id then [e] else []
    ensures Left(x, s, s'', [e] + events, rest, q, failed)
  {
    hide LogOf, Delivered, AllSound, AllStanding, OneEach, Moved;
    MovedTransitive(x, s, s', s'');
    forall id
      ensures Delivered(s''.attempts, LogOf(s''.events, id)) ==
              Delivered(s.attempts, LogOf(s.events, id)) + LogOf([e] + events, id)
    {
      LogOfCons(e, events, id);
      var head := if e.certificateId == id then [e] else [];
      assert Delivered(s.attempts, LogOf(s.events, id)) + head + LogOf(events, id)
          == Delivered(s.attempts, LogOf(s.events, id)) + (head + LogOf(events, id));
    }
  }

  lemma LeftAfterError(x: Context, s: Store, s': Store, s'': Store, rest: seq<Event>, q: Queue, failed: seq<CertId>)
    requires Moved(x, s, s') && Left(x, s', s'', [], rest, q, failed)
    requires forall id :: Delivered(s'.attempts, LogOf(s'.events, id)) == Delivered(s.attempts, LogOf(s.events, id))
    ensures Left(x, s, s'', [], rest, q, failed)
  {
    hide Delivered, AllSound, AllStanding, OneEach, Moved;
    MovedTransitive(x, s, s', s'');
  }

  lemma {:induction false} RecordSuccessesLeave(x: Context, kind: Kind, m: Moment, s: Store, events: seq<Event>, i: nat,
                                                rest: seq<Event>, q: Queue, failed: seq<CertId>)
    requires i <= |events| && forall k :: 0 <= k < |events| ==> OfKind(kind, events[k])
    requires AllSound(x.env, s) && AllStanding(x, s, events[i..] + rest, q, failed)
             && OneEach(events[i..] + rest, failed)
    ensures var r := RecordSuccesses(x.env.clock, kind, m, s, events, i);
            r.1 && Left(x, s, r.0, events[i..], rest, q, failed)
    decreases |events| - i
  {
    hide Left, AllSound, AllStanding, OneEach, Moved, Delivered, LogOf, Persist;
    if i == |events| {
      assert events[i..] == [] && events[i..] + rest == rest;
      LeftUnchanged(x, s, rest, q, failed);
    } else {
      var e := events[i];
      var payload := SuccessPayload(kind, m, i, e);
      assert events[i..] + rest == [e] + (events[i + 1..] + rest);
      assert RecordOf(payload, e, false);
      RecordFirst(x, s, e, payload, false, events[i + 1..] + rest, q, failed);
      var s' := Persist(x.env.clock, s, e.certificateId, payload).0;
      RecordSuccessesLeave(x, kind, m, s', events, i + 1, rest, q, failed);
      var s'' := RecordSuccesses(x.env.clock, kind, m, s', events, i + 1).0;
      LeftAfterSuccess(x, s, s', s'', e, events[i + 1..], rest, q, failed);
      assert events[i..] == [e] + events[i + 1..];
    }
  }

  lemma {:induction false} RecordErrorsLeave(x: Context, s: Store, events: seq<Event>, i: nat,
                                             rest: seq<Event>, q: Queue, failed: seq<CertId>)
    requires i <= |events|
    requires AllSound(x.env, s) && AllStanding(x, s, events[i..] + rest, q, failed)
             && OneEach(events[i..] + rest, failed)
    requires !x.well
    ensures var r := RecordErrors(x.env.clock, s, events, i);
            r.1 && Left(x, s, r.0, [], rest, q, failed + CertificateIds(events)[i..])
    decreases |events| - i
  {
    hide Left, AllSound, AllStanding, OneEach, Moved, Delivered, LogOf, Persist;
    if i == |events| {
      assert events[i..] + rest == rest && failed + CertificateIds(events)[i..] == failed;
      LeftUnchanged(x, s, rest, q, failed);
    } else {
      var e := events[i];
      var payload := PersistError(e.id);
      assert events[i..] + rest == [e] + (events[i + 1..] + rest);
      RecordFirst(x, s, e, payload, true, events[i + 1..] + rest, q, failed);
      var s' := Persist(x.env.clock, s, e.certificateId, payload).0;
      var failed' := failed + [e.certificateId];
      RecordErrorsLeave(x, s', events, i + 1, rest, q, failed');
      assert failed' + CertificateIds(events)[i + 1..] == failed + CertificateIds(events)[i..];
      LeftAfterError(x, s, s', RecordErrors(x.env.clock, s', events, i + 1).0, rest, q,
                     failed + CertificateIds(events)[i..]);
    }
  }

  // ----- one call to the blockchain

  lemma GrowthStands(x: Context, s: Store, s': Store, todo: seq<Event>, q: Queue, failed: seq<CertId>)
    requires AllSound(x.env, s) && OnlyGrew(s, s') && AllStanding(x, s, todo, q, failed)
    ensures AllStanding(x, s', todo, q, failed)
  {
    hide LogOf, Grew, StandingOf, LineOf, AllSound;
    forall id ensures StandingOf(x, s', todo, q, failed, id) {
      OthersStand(x, s, s', todo, todo, q, failed, failed, id);
    }
  }

  lemma GrowthDeliversNothing(s: Store, s': Store)
    requires OnlyGrew(s, s')
    ensures forall id :: Delivered(s'.attempts, LogOf(s'.events, id)) == Delivered(s.attempts, LogOf(s.events, id))
  {
    hide LogOf, Grew, Delivered;
    forall id ensures Delivered(s'.attempts, LogOf(s'.events, id)) == Delivered(s.attempts, LogOf(s.events, id)) {
      GrowthDelivers(s.attempts, LogOf(s.events, id), s'.attempts, LogOf(s'.events, id));
    }
  }

  lemma ArrivalsLeave(x: Context, s: Store, requests: seq<Request>, todo: seq<Event>, q: Queue, failed: seq<CertId>)
    requires AllSound(x.env, s) && AllStanding(x, s, todo, q, failed) && OneEach(todo, failed)
    ensures Left(x, s, ServeAll(x.env.clock, s, requests), [], todo, q, failed)
  {
    hide LogOf, Delivered, OnlyGrew, AllStanding, OneEach, ServeAll, Moved;
    var s' := ServeAll(x.env.clock, s, requests);
    ServeAllGrows(x.env.clock, s, requests);
    GrowthIsAllSound(x.env, s, s');
    GrowthStands(x, s, s', todo, q, failed);
    GrowthDeliversNothing(s, s');
    ArrivalsMove(x, s, requests);
    forall id ensures LogOf([], id) == [] { LogOfEmpty([], id); }
  }

  lemma ArrivalsMove(x: Context, s: Store, requests: seq<Request>)
    requires Consistent(x.env.clock, s) && OnlyGrew(s, ServeAll(x.env.clock, s, requests))
    ensures Moved(x, s, ServeAll(x.env.clock, s, requests))
  {
    hide LogOf, Grew, ServeAll, Advanced, Spared, Extended;
    ServeAllExtends(x.env.clock, s, requests);
    ExtendedMoves(x, s, ServeAll(x.env.clock, s, requests));
  }

  /**
   * Sending a block keeps everything in place, whether the blockchain accepts it or not: no exception
   * escapes, and exactly the certificates of a refused block have failed.
   */
  lemma SendBlockIsGood(x: Context, kind: Kind, idMap: map<CertId, int>, w: World, block: seq<Event>,
                        rest: seq<Event>, q: Queue, failed: seq<CertId>)
    requires Good(x, w, block + rest, q, failed) && SentUnder(x.env, kind, idMap, w, block)
    requires forall k :: 0 <= k < |block| ==> OfKind(kind, block[k])
    ensures var r := SendBlock(x.env, kind, idMap, w, block);
            && Good(x, r.0, rest, q, failed + r.1) && Moved(x, w.store, r.0.store)
            && r.1 == if x.env.script(w.chain.calls).accepted then [] else CertificateIds(block)
  {
    hide LogOf, Delivered, AllSound, AllStanding, OneEach, ServeAll, Moved, RecordSuccesses, RecordErrors, HistoryFits,
         SentUnder, TargetsIn, OnRecord, ChainAgrees;
    var m := x.env.script(w.chain.calls);
    var arrived := ServeAll(x.env.clock, w.store, m.arrivals);
    ArrivalsAreUnrecorded(x.env, w.store, m.arrivals);
    ArrivalsLeave(x, w.store, m.arrivals, block + rest, q, failed);
    assert block[0..] == block;
    var r := SendBlock(x.env, kind, idMap, w, block);
    if m.accepted {
      RecordSuccessesLeave(x, kind, m, arrived, block, 0, rest, q, failed);
      SendBlockFits(x.env, kind, idMap, w, block);
      MovedTransitive(x, w.store, arrived, r.0.store);
      assert failed + r.1 == failed;
      ChainGrows(w, arrived, r.0, block);
    } else {
      RecordErrorsLeave(x, arrived, block, 0, rest, q, failed);
      SendBlockFits(x.env, kind, idMap, w, block);
      MovedTransitive(x, w.store, arrived, r.0.store);
      assert CertificateIds(block)[0..] == CertificateIds(block);
      ChainGrows(w, arrived, r.0, []);
    }
  }

  lemma ArrivalsAreUnrecorded(env: Env, s: Store, requests: seq<Request>)
    requires AllSound(env, s)
    ensures OnRecord(ServeAll(env.clock, s, requests).events) == OnRecord(s.events)
  {
    hide LogOf, ServeAll, Sound, OnRecord, ModelsAgree, HasAttempts, OnlyGrew;
    forall k | 0 <= k <= |requests| ensures LogInOrder(env.clock, ServeAll(env.clock, s, requests[..k])) {
      ServeAllGrows(env.clock, s, requests[..k]);
    }
    ArrivalsRecordNothing(env.clock, s, requests);
  }

  lemma ChainGrows(w: World, arrived: Store, w': World, block: seq<Event>)
    requires ChainAgrees(w) && w'.chain.accepted == w.chain.accepted + block
    requires forall id :: Delivered(arrived.attempts, LogOf(arrived.events, id)) ==
               Delivered(w.store.attempts, LogOf(w.store.events, id)) + LogOf([], id)
    requires forall id :: Delivered(w'.store.attempts, LogOf(w'.store.events, id)) ==
               Delivered(arrived.attempts, LogOf(arrived.events, id)) + LogOf(block, id)
    ensures ChainAgrees(w')
  {
    hide LogOf, Delivered;
    forall id ensures LogOf(w'.chain.accepted, id) == Delivered(w'.store.attempts, LogOf(w'.store.events, id)) {
      LogOfConcat(w.chain.accepted, block, id);
      LogOfEmpty([], id);
    }
  }

  // ----- requests change no row

  lemma AppendExtends(clock: Clock, s: Store, command: Command, id: CertId, payload: Payload)
    requires LogInOrder(clock, s) && HasAttempts(s) && NewPayload(payload)
    ensures Extended(s, Append(clock, s, command, id, payload).0)
  {
    hide RowOf, Aggregate;
    forall eventId
      ensures RowOf(Append(clock, s, command, id, payload).0.attempts, eventId) == RowOf(s.attempts, eventId)
    {
      AppendSpares(clock, s, command, id, payload, eventId);
    }
  }

  lemma ExtendedTransitive(s: Store, s': Store, s'': Store)
    requires Extended(s, s') && Extended(s', s'')
    ensures Extended(s, s'')
  {
    hide RowOf;
  }

  lemma {:induction false} AppendAllExtends(clock: Clock, s: Store, commands: seq<Command>, ids: seq<CertId>)
    requires Consistent(clock, s) && NewCommands(commands) && |ids| == |commands|
    requires forall i :: 0 <= i < |commands| && PayloadOf(commands[i]).Issued? ==> ids[i] <= s.serial
    ensures Extended(s, AppendAll(clock, s, commands, ids).0)
  {
    hide Extended, Append;
    if commands == [] {
      assert Extended(s, s) by { SameExtends(s, s); }
    } else {
      var n := |commands| - 1;
      AppendAllExtends(clock, s, commands[..n], ids[..n]);
      AppendAllConsistent(clock, s, commands[..n], ids[..n]);
      var before := AppendAll(clock, s, commands[..n], ids[..n]);
      if before.1 {
        AppendExtends(clock, before.0, commands[n], ids[n], PayloadOf(commands[n]));
        ExtendedTransitive(s, before.0, AppendAll(clock, s, commands, ids).0);
      }
    }
  }

  lemma SameExtends(s: Store, s': Store)
    requires s.events == s'.events && s.attempts == s'.attempts
    ensures Extended(s, s')
  {
  }

  lemma BatchExtends(clock: Clock, s: Store, commands: seq<Command>, ids: seq<CertId>)
    requires Consistent(clock, s) && NewCommands(commands) && |ids| == |commands|
    requires forall i :: 0 <= i < |commands| && PayloadOf(commands[i]).Issued? ==> ids[i] <= s.serial
    ensures Extended(s, Batch(clock, s, commands, ids).0)
  {
    BatchRefinesSequence(clock, s, commands, ids);
    if Batch(clock, s, commands, ids).1 {
      AppendAllExtends(clock, s, commands, ids);
    } else {
      SameExtends(s, Batch(clock, s, commands, ids).0);
    }
  }

  lemma ServeExtends(clock: Clock, s: Store, r: Request)
    requires Consistent(clock, s)
    ensures Extended(s, Serve(clock, s, r))
  {
    hide Extended, Append, Batch;
    match r
    case IssueOne(command) =>
      var counted := s.(serial := s.serial + 1);
      SerialGrows(clock, s, s.serial + 1);
      SameExtends(s, counted);
      AppendExtends(clock, counted, command, s.serial + 1, PayloadOf(command));
      ExtendedTransitive(s, counted, Serve(clock, s, r));
    case OnOne(command) =>
      AppendExtends(clock, s, command, command.certificateId, PayloadOf(command));
    case IssueMany(commands) =>
      var counted := s.(serial := s.serial + |commands|);
      SerialGrows(clock, s, s.serial + |commands|);
      SameExtends(s, counted);
      BatchExtends(clock, counted, commands, FreshIds(s.serial, |commands|));
      ExtendedTransitive(s, counted, Serve(clock, s, r));
    case OnMany(commands) =>
      BatchExtends(clock, s, commands, TargetsOf(commands));
  }

  lemma {:induction false} ServeAllExtends(clock: Clock, s: Store, requests: seq<Request>)
    requires Consistent(clock, s)
    ensures Extended(s, ServeAll(clock, s, requests))
  {
    hide Extended, Consistent, Serve;
    if requests == [] {
      SameExtends(s, s);
    } else {
      var n := |requests| - 1;
      ServeAllExtends(clock, s, requests[..n]);
      ServeAllGrows(clock, s, requests[..n]);
      ServeExtends(clock, ServeAll(clock, s, requests[..n]), requests[n]);
      ExtendedTransitive(s, ServeAll(clock, s, requests[..n]), ServeAll(clock, s, requests));
    }
  }
}
