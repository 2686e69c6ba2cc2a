/** While nothing is requested, the synchronisation adds no events that have to be sent. */
module SyncQuiet {
  import opened CertificateEvents
  import opened CertificateStore
  import opened BatchQueue
  import opened SyncProtocol
  import opened SyncLog

  /** No request arrives during any call to the blockchain from the given one on. */
  ghost predicate Quiet(env: Env, calls: nat) {
    forall k: nat :: calls <= k ==> env.script(k).arrivals == []
  }

  /** The same events go out as before, and the calls have not become fewer. */
  ghost predicate Calm(w: World, w': World) {
    Outgoing(w'.store.events) == Outgoing(w.store.events) && w.chain.calls <= w'.chain.calls
  }

  lemma AppendedRecord(events: seq<Event>, r: Event)
    requires !ToSynchronize(r)
    ensures Outgoing(events + [r]) == Outgoing(events)
  {
    assert (events + [r])[..|events|] == events;
  }

  lemma PersistIsCalm(clock: Clock, s: Store, id: CertId, payload: Payload)
    requires !NewPayload(payload)
    ensures Outgoing(Persist(clock, s, id, payload).0.events) == Outgoing(s.events)
  {
    hide Aggregate, UpdateAttempt;
    AppendedRecord(s.events, NewEvent(clock, s, id, payload));
  }

  lemma {:induction false} RecordSuccessesIsCalm(clock: Clock, kind: Kind, m: Moment, s: Store, events: seq<Event>,
                                                 i: nat)
    ensures Outgoing(RecordSuccesses(clock, kind, m, s, events, i).0.events) == Outgoing(s.events)
    decreases |events| - i
  {
    hide Persist, Outgoing;
    if i < |events| {
      var payload := SuccessPayload(kind, m, i, events[i]);
      PersistIsCalm(clock, s, events[i].certificateId, payload);
      RecordSuccessesIsCalm(clock, kind, m, Persist(clock, s, events[i].certificateId, payload).0, events, i + 1);
    }
  }

  lemma {:induction false} RecordErrorsIsCalm(clock: Clock, s: Store, events: seq<Event>, i: nat)
    ensures Outgoing(RecordErrors(clock, s, events, i).0.events) == Outgoing(s.events)
    decreases |events| - i
  {
    hide Persist, Outgoing;
    if i < |events| {
      var payload := PersistError(events[i].id);
      PersistIsCalm(clock, s, events[i].certificateId, payload);
      RecordErrorsIsCalm(clock, Persist(clock, s, events[i].certificateId, payload).0, events, i + 1);
    }
  }

  lemma SendBlockIsCalm(env: Env, kind: Kind, idMap: map<CertId, int>, w: World, events: seq<Event>)
    requires Quiet(env, w.chain.calls)
    ensures Calm(w, SendBlock(env, kind, idMap, w, events).0)
  {
    hide RecordSuccesses, RecordErrors, Outgoing;
    var m := env.script(w.chain.calls);
    assert ServeAll(env.clock, w.store, m.arrivals) == w.store;
    RecordSuccessesIsCalm(env.clock, kind, m, w.store, events, 0);
    RecordErrorsIsCalm(env.clock, w.store, events, 0);
    RecordErrorsIsCalm(env.clock, RecordSuccesses(env.clock, kind, m, w.store, events, 0).0, events, 0);
  }

  lemma {:induction false} HandleBlocksIsCalm(env: Env, kind: Kind, idMap: map<CertId, int>, w: World,
                                              blocks: seq<seq<Event>>, failed: seq<CertId>)
    requires Quiet(env, w.chain.calls)
    ensures Calm(w, HandleBlocks(env, kind, idMap, w, blocks, failed).0)
    decreases |blocks|
  {
    hide SendBlock, ToSend, Outgoing;
    if blocks != [] && !w.thrown {
      var events := ToSend(kind, blocks[0], failed);
      SendBlockIsCalm(env, kind, idMap, w, events);
      var r := SendBlock(env, kind, idMap, w, events);
      HandleBlocksIsCalm(env, kind, idMap, r.0, blocks[1..], failed + r.1);
    }
  }

  lemma PhaseIsCalm(env: Env, kind: Kind, batch: seq<Event>, y: Sync)
    requires 1 <= env.sizes(kind) && Quiet(env, y.world.chain.calls)
    ensures Calm(y.world, Phase(env, kind, batch, y).world)
  {
    hide HandleBlocks, Chunk, PhaseEvents, PhaseIds, Outgoing;
    var blocks := Chunk(PhaseEvents(kind, batch, y), env.sizes(kind));
    HandleBlocksIsCalm(env, kind, PhaseIds(kind, batch, y), y.world, blocks, []);
  }

  lemma RoundIsCalm(env: Env, y: Sync)
    requires Proper(env) && Quiet(env, y.world.chain.calls)
    ensures Calm(y.world, Round(env, y).world)
  {
    hide Phase, PoppedBatch, AfterPop, Outgoing;
    var batch := PoppedBatch(y.queue);
    var popped := y.(queue := AfterPop(y.queue));
    PhaseIsCalm(env, Issuances, batch, popped);
    var issued := Phase(env, Issuances, batch, popped);
    PhaseIsCalm(env, Transfers, batch, issued);
    PhaseIsCalm(env, Claims, batch, Phase(env, Transfers, batch, issued));
  }

  lemma {:induction false} RoundsAreCalm(env: Env, y: Sync)
    requires Proper(env) && Quiet(env, y.world.chain.calls)
    ensures Calm(y.world, Rounds(env, y).world)
    decreases Longest(y.queue)
  {
    hide Round, Longest, IsEmptyQueue, Outgoing;
    if !IsEmptyQueue(y.queue) && !y.world.thrown {
      RoundShrinksQueue(env, y);
      RoundIsCalm(env, y);
      RoundsAreCalm(env, Round(env, y));
    }
  }

  /** A pass during which nothing is requested leaves the outgoing events as they are. */
  lemma PassIsCalm(env: Env, w: World, limit: nat)
    requires Proper(env) && Quiet(env, w.chain.calls)
    ensures Calm(w, Pass(env, w, limit))
    ensures Quiet(env, Pass(env, w, limit).chain.calls)
  {
    hide Rounds, Select, QueueOf, Outgoing;
    RoundsAreCalm(env, Sync(w, QueueOf(Select(w.store, env.max, limit)), []));
  }
}
