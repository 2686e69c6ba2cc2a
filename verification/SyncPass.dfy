/** What a whole pass of the synchronisation keeps and achieves. */
module SyncPass {
  import opened CertificateEvents
  import opened CertificateAggregate
  import opened CertificateStore
  import opened CertificateStoreFacts
  import opened BatchQueue
  import opened SyncProtocol
  import opened SyncLog
  import opened SyncLine
  import opened SyncStore
  import opened SyncHistory
  import opened SyncBlock

  // ----- one handler

  lemma {:induction false} NotFailedKeepsAll(events: seq<Event>, rest: seq<Event>, failed: seq<CertId>)
    requires OneEach(events + rest, failed)
    ensures NotFailed(events, failed) == events
  {
    if events != [] {
      var n := |events| - 1;
      assert events + rest == events[..n] + ([events[n]] + rest);
      NotFailedKeepsAll(events[..n], [events[n]] + rest, failed);
      LastIsNotFailed(events[..n], events[n], rest, failed);
    }
  }

  lemma LastIsNotFailed(before: seq<Event>, e: Event, rest: seq<Event>, failed: seq<CertId>)
    requires OneEach(before + ([e] + rest), failed)
    ensures e.certificateId !in failed
  {
    hide LogOf;
    var id := e.certificateId;
    LogOfConcat(before, [e] + rest, id);
    LogOfCons(e, rest, id);
    assert |LogOf(before + ([e] + rest), id)| <= if id in failed then 0 else 1;
  }

  lemma OfKindPart(kind: Kind, events: seq<Event>, size: nat)
    requires size <= |events| && forall k :: 0 <= k < |events| ==> OfKind(kind, events[k])
    ensures forall k :: 0 <= k < size ==> OfKind(kind, events[..size][k])
    ensures forall k :: 0 <= k < |events| - size ==> OfKind(kind, events[size..][k])
  {
    forall k | 0 <= k < |events| - size ensures OfKind(kind, events[size..][k]) {
      assert events[size..][k] == events[size + k];
    }
  }

  lemma PartSentUnder(env: Env, kind: Kind, idMap: map<CertId, int>, w: World, events: seq<Event>, size: nat)
    requires SentUnder(env, kind, idMap, w, events) && size <= |events|
    ensures SentUnder(env, kind, idMap, w, events[..size]) && SentUnder(env, kind, idMap, w, events[size..])
  {
    hide MapFits;
  }

  lemma SentUnderLater(env: Env, kind: Kind, idMap: map<CertId, int>, w: World, block: seq<Event>, later: seq<Event>)
    requires SentUnder(env, kind, idMap, w, later)
    ensures SentUnder(env, kind, idMap, SendBlock(env, kind, idMap, w, block).0, later)
  {
    hide IssuedAs, RecordSuccesses, RecordErrors, ServeAll, TargetsIn;
    var w' := SendBlock(env, kind, idMap, w, block).0;
    assert w.chain.history <= w'.chain.history;
    if !kind.Issuances? {
      forall id | id in idMap ensures IssuedAs(env, w'.chain.history, id, idMap[id]) {
        IssuedLater(env, w.chain.history, w'.chain.history, id, idMap[id]);
      }
    }
  }

  /** The calls that send some blocks as they are. */
  function CallsOf(kind: Kind, idMap: map<CertId, int>, blocks: seq<seq<Event>>): seq<Call> {
    if blocks == [] then []
    else [Call(kind, blocks[0], TargetsIn(idMap, blocks[0]))] + CallsOf(kind, idMap, blocks[1..])
  }

  /** One handler sends all the events it is given, block by block and each block once, whatever fails. */
  lemma {:induction false} HandleBlocksIsGood(x: Context, kind: Kind, idMap: map<CertId, int>, size: nat, w: World,
                                              events: seq<Event>, rest: seq<Event>, q: Queue, failed: seq<CertId>)
    requires 1 <= size && Good(x, w, events + rest, q, failed) && SentUnder(x.env, kind, idMap, w, events)
    requires forall k :: 0 <= k < |events| ==> OfKind(kind, events[k])
    ensures var r := HandleBlocks(x.env, kind, idMap, w, Chunk(events, size), failed);
            && Good(x, r.0, rest, q, r.1) && Moved(x, w.store, r.0.store)
            && r.0.chain.history == w.chain.history + CallsOf(kind, idMap, Chunk(events, size))
    decreases |events|
  {
    hide Good, OfKind, Moved, SendBlock, NotFailed, SentUnder, TargetsIn, CallsOf;
    GoodIsNotThrown(x, w, events + rest, q, failed);
    if events == [] {
      assert events + rest == rest;
      NoCalls(kind, idMap, w.chain.history);
      MovedNowhere(x, w.store);
    } else {
      var n := if |events| <= size then |events| else size;
      var block, later := events[..n], events[n..];
      assert events + rest == block + (later + rest);
      OfKindPart(kind, events, n);
      PartSentUnder(x.env, kind, idMap, w, events, n);
      BlockIsSentWhole(x, kind, w, block, later + rest, q, failed);
      SendBlockIsGood(x, kind, idMap, w, block, later + rest, q, failed);
      var r := SendBlock(x.env, kind, idMap, w, block);
      SentUnderLater(x.env, kind, idMap, w, block, later);
      HandleBlocksIsGood(x, kind, idMap, size, r.0, later, rest, q, failed + r.1);
      ChunkStep(events, size, n);
      var blocks := Chunk(events, size);
      assert HandleBlocks(x.env, kind, idMap, w, blocks, failed) ==
             HandleBlocks(x.env, kind, idMap, r.0, blocks[1..], failed + r.1);
      MovedTransitive(x, w.store, r.0.store, HandleBlocks(x.env, kind, idMap, w, blocks, failed).0.store);
      OneCall(x.env, kind, idMap, w, block);
      CallsStep(kind, idMap, w.chain.history, blocks);
    }
  }

  lemma NoCalls(kind: Kind, idMap: map<CertId, int>, history: seq<Call>)
    ensures history + CallsOf(kind, idMap, []) == history
  {
  }

  lemma CallsStep(kind: Kind, idMap: map<CertId, int>, history: seq<Call>, blocks: seq<seq<Event>>)
    requires blocks != []
    ensures history + CallsOf(kind, idMap, blocks) ==
            history + [Call(kind, blocks[0], TargetsIn(idMap, blocks[0]))] + CallsOf(kind, idMap, blocks[1..])
  {
    hide TargetsIn;
  }

  lemma OneCall(env: Env, kind: Kind, idMap: map<CertId, int>, w: World, block: seq<Event>)
    ensures SendBlock(env, kind, idMap, w, block).0.chain.history ==
            w.chain.history + [Call(kind, block, TargetsIn(idMap, block))]
  {
    hide RecordSuccesses, RecordErrors, ServeAll, TargetsIn;
  }

  lemma GoodIsNotThrown(x: Context, w: World, todo: seq<Event>, q: Queue, failed: seq<CertId>)
    requires Good(x, w, todo, q, failed)
    ensures !w.thrown && OneEach(todo, failed) && AllSound(x.env, w.store) && HistoryFits(x.env, w)
  {
    hide AllSound, AllStanding, OneEach, ChainAgrees, HistoryFits;
  }

  lemma BlockIsSentWhole(x: Context, kind: Kind, w: World, block: seq<Event>, rest: seq<Event>, q: Queue,
                         failed: seq<CertId>)
    requires Good(x, w, block + rest, q, failed)
    ensures ToSend(kind, block, failed) == block
  {
    hide AllSound, AllStanding, OneEach, ChainAgrees, HistoryFits;
    NotFailedKeepsAll(block, rest, failed);
  }

  lemma ChunkStep(events: seq<Event>, size: nat, n: nat)
    requires 1 <= size && events != [] && n == if |events| <= size then |events| else size
    ensures Chunk(events, size) == [events[..n]] + Chunk(events[n..], size)
  {
    if |events| <= size {
      assert events[..n] == events && events[n..] == [];
    }
  }

  // ----- one phase

  /** Certificates put down as failed have nothing left to send. */
  ghost predicate Retired(todo: seq<Event>, q: Queue, failed: seq<CertId>) {
    forall id :: id in failed ==> LogOf(todo, id) == [] && Waiting(q, id) == []
  }

  ghost predicate Between(x: Context, y: Sync, todo: seq<Event>) {
    Good(x, y.world, todo, y.queue, []) && Retired(todo, y.queue, y.failed)
  }

  lemma NoneOfTheFailed(todo: seq<Event>, q: Queue, failed: seq<CertId>)
    requires OneEach(todo, []) && Retired(todo, q, failed)
    ensures OneEach(todo, failed)
  {
    hide LogOf;
    forall id ensures |LogOf(todo, id)| <= if id in failed then 0 else 1 {
      assert |LogOf(todo, id)| <= if id in [] then 0 else 1;
    }
  }

  lemma {:induction false} OnlyOfKind(kind: Kind, events: seq<Event>)
    ensures forall k :: 0 <= k < |Only(kind, events)| ==> OfKind(kind, Only(kind, events)[k])
  {
    if events != [] {
      OnlyOfKind(kind, events[..|events| - 1]);
    }
  }

  /** An event that may be sent but is not the issuance has a blockchain id: the issuance precedes it and is done. */
  lemma ReadyHasBlockchainId(env: Env, s: Store, e: Event)
    requires AllSound(env, s) && Ready(env.max, s.attempts, LogOf(s.events, e.certificateId), e) && !e.payload.Issued?
    ensures HasBlockchainId(s.events, e.certificateId)
  {
    hide FromEvents, LogOf, InOrder, Bounded, HasRows, ToPersist, Owed;
    var id := e.certificateId;
    var log := LogOf(s.events, id);
    StoredLogFolds(env.clock, s, id);
    assert Sound(env.max, s.attempts, log);
    var i :| 0 <= i < |log| && log[i] == e;
    assert log[0].id < log[i].id && ToSynchronize(log[0]);
    assert Done(s.attempts, log[0].id);
    var k :| 0 <= k < |log| && log[k].payload.IssuancePersisted?;
    StoredLog(env.clock, s, id);
    assert log[k] in log;
    assert s.events[log[k].id - 1] == log[k];
  }

  /** The log of a certificate, if there is any, begins with its issuance and has no other. */
  lemma StoredLogFolds(clock: Clock, s: Store, id: CertId)
    requires Consistent(clock, s)
    ensures var log := LogOf(s.events, id);
            log != [] ==> log[0].payload.Issued? && forall i :: 0 < i < |log| ==> !log[i].payload.Issued?
  {
    hide LogOf;
    var log := LogOf(s.events, id);
    if log != [] {
      LogIsSorted(clock, s);
      LogOfSorted(s.events, id);
      FromSortedEvents(log);
      FoldKeepsId(log);
    }
  }

  /** Whatever is about to be sent is ready. */
  lemma NextIsReady(x: Context, w: World, before: seq<Event>, e: Event, rest: seq<Event>, q: Queue)
    requires Good(x, w, before + ([e] + rest), q, [])
    ensures Ready(x.env.max, w.store.attempts, LogOf(w.store.events, e.certificateId), e)
  {
    hide LogOf, Ready, InLine, Settled, Sound, ChainAgrees, HistoryFits;
    var id := e.certificateId;
    var todo := before + ([e] + rest);
    LogOfConcat(before, [e] + rest, id);
    LogOfCons(e, rest, id);
    assert |LogOf(todo, id)| <= if id in [] then 0 else 1;
    assert LogOf(todo, id) == [e];
    assert StandingOf(x, w.store, todo, q, [], id);
    HeadIsReady(x.env.max, x.start, w.store.attempts, LogOf(w.store.events, id), LineOf(todo, q, [], id));
  }

  lemma {:induction false} NoneWithoutBlockchainId(x: Context, w: World, kind: Kind, events: seq<Event>,
                                                   rest: seq<Event>, q: Queue)
    requires !kind.Issuances? && forall k :: 0 <= k < |events| ==> OfKind(kind, events[k])
    requires Good(x, w, events + rest, q, [])
    ensures WithBlockchainId(w.store, events) == events
  {
    hide Good, HasBlockchainId, Ready, LogOf;
    if events != [] {
      var n := |events| - 1;
      assert events + rest == events[..n] + ([events[n]] + rest);
      NoneWithoutBlockchainId(x, w, kind, events[..n], [events[n]] + rest, q);
      NextIsReady(x, w, events[..n], events[n], rest, q);
      GoodIsNotThrown(x, w, events + rest, q, []);
      ReadyHasBlockchainId(x.env, w.store, events[n]);
    }
  }

  /**
   * No event that was popped is left out of its phase: not for a failed certificate, not for lack of a
   * blockchain id.
   */
  lemma {:induction false} PhaseSendsAll(x: Context, kind: Kind, batch: seq<Event>, y: Sync, rest: seq<Event>)
    requires Between(x, y, Only(kind, batch) + rest)
    ensures PhaseEvents(kind, batch, y) == Only(kind, batch)
  {
    hide Good, Retired, OneEach, Only, NotFailed, WithBlockchainId;
    var events := Only(kind, batch);
    GoodIsNotThrown(x, y.world, events + rest, y.queue, []);
    NoneOfTheFailed(events + rest, y.queue, y.failed);
    NotFailedKeepsAll(events, rest, y.failed);
    OnlyOfKind(kind, batch);
    if !kind.Issuances? {
      NoneWithoutBlockchainId(x, y.world, kind, events, rest, y.queue);
    }
  }

  lemma {:induction false} AllHaveIds(s: Store, events: seq<Event>)
    ensures |WithBlockchainId(s, events)| <= |events|
    ensures WithBlockchainId(s, events) == events ==>
              forall k :: 0 <= k < |events| ==> HasBlockchainId(s.events, events[k].certificateId)
  {
    hide HasBlockchainId;
    if events != [] {
      var n := |events| - 1;
      AllHaveIds(s, events[..n]);
      if WithBlockchainId(s, events) == events {
        assert HasBlockchainId(s.events, events[n].certificateId);
        assert WithBlockchainId(s, events[..n]) == events[..n];
        assert forall k :: 0 <= k < n ==> events[..n][k] == events[k];
      }
    }
  }

  /** The events of a phase go out under the ids that were returned for their certificates. */
  lemma PhaseSendsUnder(x: Context, kind: Kind, batch: seq<Event>, y: Sync, rest: seq<Event>)
    requires Between(x, y, Only(kind, batch) + rest)
    ensures SentUnder(x.env, kind, PhaseIds(kind, batch, y), y.world, Only(kind, batch))
  {
    hide Good, Retired, OneEach, Only, NotFailed, WithBlockchainId, HasBlockchainId, BlockchainIds, HistoryFits,
         MapFits;
    var events := Only(kind, batch);
    GoodIsNotThrown(x, y.world, events + rest, y.queue, []);
    NoneOfTheFailed(events + rest, y.queue, y.failed);
    NotFailedKeepsAll(events, rest, y.failed);
    OnlyOfKind(kind, batch);
    if !kind.Issuances? {
      NoneWithoutBlockchainId(x, y.world, kind, events, rest, y.queue);
      AllHaveIds(y.world.store, events);
      LookedUpFits(x.env, y.world, CertificatesOf(events));
      forall k | 0 <= k < |events| ensures events[k].certificateId in PhaseIds(kind, batch, y) {
        InIdMap(y.world.store.events, CertificatesOf(events), events[k].certificateId);
      }
    }
  }

  /** Taking the failed certificates off the queue leaves everybody else in line. */
  lemma RemovalIsGood(x: Context, w: World, rest: seq<Event>, q: Queue, ids: seq<CertId>)
    requires Good(x, w, rest, q, ids)
    ensures Good(x, w, rest, Without(q, ids), [])
    ensures Retired(rest, Without(q, ids), ids)
  {
    hide LogOf, Standing, Sound;
    forall id
      ensures LineOf(rest, Without(q, ids), [], id) == LineOf(rest, q, ids, id)
      ensures |LogOf(rest, id)| <= 1
      ensures id in ids ==> LogOf(rest, id) == [] && Waiting(Without(q, ids), id) == []
    {
      assert |LogOf(rest, id)| <= if id in ids then 0 else 1;
    }
    forall id ensures StandingOf(x, w.store, rest, Without(q, ids), [], id) {
      assert StandingOf(x, w.store, rest, q, ids, id);
    }
  }

  lemma RetiredStays(todo: seq<Event>, before: seq<Event>, rest: seq<Event>, q: Queue, ids: seq<CertId>,
                     failed: seq<CertId>)
    requires todo == before + rest && Retired(todo, q, failed)
    ensures Retired(rest, Without(q, ids), failed)
  {
    hide LogOf;
    forall id | id in failed ensures LogOf(rest, id) == [] && Waiting(Without(q, ids), id) == [] {
      LogOfConcat(before, rest, id);
    }
  }

  lemma PhaseIsGood(x: Context, kind: Kind, batch: seq<Event>, y: Sync, rest: seq<Event>)
    requires 1 <= x.env.sizes(kind) && Between(x, y, Only(kind, batch) + rest)
    ensures var y' := Phase(x.env, kind, batch, y);
            && Between(x, y', rest) && Moved(x, y.world.store, y'.world.store)
            && y'.world.chain.history == y.world.chain.history
                 + CallsOf(kind, PhaseIds(kind, batch, y), Chunk(Only(kind, batch), x.env.sizes(kind)))
  {
    hide Good, Retired, Only, PhaseEvents, PhaseIds, HandleBlocks, Chunk, Moved, SentUnder, CallsOf;
    var events, idMap := Only(kind, batch), PhaseIds(kind, batch, y);
    PhaseSendsAll(x, kind, batch, y, rest);
    PhaseSendsUnder(x, kind, batch, y, rest);
    OnlyOfKind(kind, batch);
    HandleBlocksIsGood(x, kind, idMap, x.env.sizes(kind), y.world, events, rest, y.queue, []);
    var r := HandleBlocks(x.env, kind, idMap, y.world, Chunk(events, x.env.sizes(kind)), []);
    RemovalIsGood(x, r.0, rest, y.queue, r.1);
    RetiredStays(events + rest, events, rest, y.queue, r.1, y.failed);
    RetiredTogether(rest, Without(y.queue, r.1), y.failed, r.1);
  }

  lemma RetiredTogether(todo: seq<Event>, q: Queue, a: seq<CertId>, b: seq<CertId>)
    requires Retired(todo, q, a) && Retired(todo, q, b)
    ensures Retired(todo, q, a + b)
  {
    hide LogOf, Waiting;
  }

  // ----- one round

  lemma {:induction false} KindsOfLog(kind: Kind, events: seq<Event>, id: CertId)
    ensures LogOf(Only(kind, events), id) == Only(kind, LogOf(events, id))
  {
    if events != [] {
      var n := |events| - 1;
      var before, e := events[..n], events[n];
      KindsOfLog(kind, before, id);
      LogOfAppend(Only(kind, before), e, id);
      OnlyAppend(kind, LogOf(before, id), e);
      assert Only(kind, before) + [] == Only(kind, before);
      assert LogOf(before, id) + [] == LogOf(before, id);
      assert Only(kind, LogOf(before, id)) + [] == Only(kind, LogOf(before, id));
    }
  }

  lemma OnlyAppend(kind: Kind, s: seq<Event>, e: Event)
    ensures Only(kind, s + [e]) == Only(kind, s) + if OfKind(kind, e) then [e] else []
  {
    assert (s + [e])[..|s|] == s;
  }

  lemma OnlyNothing()
    ensures forall kind :: Only(kind, []) == []
  {
  }

  lemma {:induction false} KindsOfOne(s: seq<Event>)
    requires |s| <= 1 && forall i :: 0 <= i < |s| ==> ToSynchronize(s[i])
    ensures Only(Issuances, s) + (Only(Transfers, s) + (Only(Claims, s) + [])) == s
  {
    hide Only;
    OnlyNothing();
    if s != [] {
      assert s == [] + [s[0]];
      OnlyAppend(Issuances, [], s[0]);
      OnlyAppend(Transfers, [], s[0]);
      OnlyAppend(Claims, [], s[0]);
    }
  }

  function ByKind(batch: seq<Event>): seq<Event> {
    Only(Issuances, batch) + (Only(Transfers, batch) + (Only(Claims, batch) + []))
  }

  /** Sorting a batch by kind keeps the one event of each certificate. */
  lemma ByKindKeepsLog(batch: seq<Event>, id: CertId)
    requires |LogOf(batch, id)| <= 1 && forall i :: 0 <= i < |LogOf(batch, id)| ==> ToSynchronize(LogOf(batch, id)[i])
    ensures LogOf(ByKind(batch), id) == LogOf(batch, id)
  {
    hide LogOf, Only;
    KindsOfLog(Issuances, batch, id);
    KindsOfLog(Transfers, batch, id);
    KindsOfLog(Claims, batch, id);
    KindsOfOne(LogOf(batch, id));
    LogOfConcat(Only(Issuances, batch), Only(Transfers, batch) + (Only(Claims, batch) + []), id);
    LogOfConcat(Only(Transfers, batch), Only(Claims, batch) + [], id);
    LogOfConcat(Only(Claims, batch), [], id);
    LogOfEmpty([], id);
  }

  lemma PoppedOneEach(x: Context, y: Sync, id: CertId)
    requires Between(x, y, []) && WellQueued(y.queue)
    ensures var todo := ByKind(PoppedBatch(y.queue));
            && LogOf(todo, id) == HeadOf(y.queue, id)
            && |LogOf(todo, id)| <= 1
            && LogOf(todo, id) + Waiting(AfterPop(y.queue), id) == LogOf([], id) + Waiting(y.queue, id)
  {
    hide LogOf, PoppedBatch, AfterPop, ChainAgrees, HistoryFits, AllSound, Settled, NoGaps, ByKind, Retired;
    PopTakesHeads(y.queue, id);
    LogOfEmpty([], id);
    assert StandingOf(x, y.world.store, [], y.queue, [], id);
    assert LineOf([], y.queue, [], id) == Waiting(y.queue, id);
    ByKindKeepsLog(PoppedBatch(y.queue), id);
  }

  lemma PopIsGood(x: Context, y: Sync)
    requires Between(x, y, []) && WellQueued(y.queue)
    ensures Between(x, y.(queue := AfterPop(y.queue)), ByKind(PoppedBatch(y.queue)))
  {
    hide LogOf, ByKind, PoppedBatch, AfterPop, ChainAgrees, HistoryFits, AllSound, Standing, WellQueued, HeadOf,
         Waiting;
    var todo, q := ByKind(PoppedBatch(y.queue)), AfterPop(y.queue);
    forall id
      ensures StandingOf(x, y.world.store, todo, q, [], id)
      ensures |LogOf(todo, id)| <= 1
      ensures id in y.failed ==> LogOf(todo, id) == [] && Waiting(q, id) == []
    {
      PoppedOneEach(x, y, id);
      assert StandingOf(x, y.world.store, [], y.queue, [], id);
      LogOfEmpty([], id);
      assert id in y.failed ==> LogOf(todo, id) + Waiting(q, id) == [];
    }
  }

  lemma PhaseKeepsQueue(env: Env, kind: Kind, batch: seq<Event>, y: Sync)
    requires 1 <= env.sizes(kind) && WellQueued(y.queue)
    ensures WellQueued(Phase(env, kind, batch, y).queue)
  {
    hide HandleBlocks, PhaseEvents, PhaseIds;
  }

  /** Of some events the issuances are sent first, then the transfers, then the claims, each in blocks of its size. */
  ghost predicate SentAs(env: Env, batch: seq<Event>, before: seq<Call>, after: seq<Call>,
                         issued: map<CertId, int>, transferred: map<CertId, int>, claimed: map<CertId, int>)
    requires Proper(env)
  {
    after == before + CallsOf(Issuances, issued, Chunk(Only(Issuances, batch), env.sizes(Issuances)))
             + CallsOf(Transfers, transferred, Chunk(Only(Transfers, batch), env.sizes(Transfers)))
             + CallsOf(Claims, claimed, Chunk(Only(Claims, batch), env.sizes(Claims)))
  }

  ghost predicate SendsInOrder(env: Env, y: Sync, y': Sync)
    requires Proper(env)
  {
    exists issued, transferred, claimed ::
      SentAs(env, PoppedBatch(y.queue), y.world.chain.history, y'.world.chain.history, issued, transferred, claimed)
  }

  lemma RoundIsGood(x: Context, y: Sync)
    requires Proper(x.env) && Between(x, y, []) && WellQueued(y.queue)
    ensures var y' := Round(x.env, y);
            && Between(x, y', []) && WellQueued(y'.queue) && Moved(x, y.world.store, y'.world.store)
            && SendsInOrder(x.env, y, y')
  {
    hide Between, Phase, PoppedBatch, AfterPop, Moved, WellQueued, Only, Chunk, CallsOf, PhaseIds;
    var batch := PoppedBatch(y.queue);
    var popped := y.(queue := AfterPop(y.queue));
    PopIsGood(x, y);
    PopKeepsQueue(y.queue);
    var claims := Only(Claims, batch) + [];
    var others := Only(Transfers, batch) + claims;
    PhaseIsGood(x, Issuances, batch, popped, others);
    PhaseKeepsQueue(x.env, Issuances, batch, popped);
    var issued := Phase(x.env, Issuances, batch, popped);
    PhaseIsGood(x, Transfers, batch, issued, claims);
    PhaseKeepsQueue(x.env, Transfers, batch, issued);
    var transferred := Phase(x.env, Transfers, batch, issued);
    PhaseIsGood(x, Claims, batch, transferred, []);
    PhaseKeepsQueue(x.env, Claims, batch, transferred);
    var claimed := Phase(x.env, Claims, batch, transferred);
    MovedTransitive(x, popped.world.store, issued.world.store, transferred.world.store);
    MovedTransitive(x, popped.world.store, transferred.world.store, claimed.world.store);
    assert SentAs(x.env, batch, y.world.chain.history, claimed.world.chain.history,
                  PhaseIds(Issuances, batch, popped), PhaseIds(Transfers, batch, issued),
                  PhaseIds(Claims, batch, transferred));
  }

  lemma {:induction false} RoundsAreGood(x: Context, y: Sync)
    requires Proper(x.env) && Between(x, y, []) && WellQueued(y.queue)
    ensures var y' := Rounds(x.env, y);
            && Between(x, y', []) && Moved(x, y.world.store, y'.world.store) && IsEmptyQueue(y'.queue)
    decreases Longest(y.queue)
  {
    hide Good, Retired, Round, Moved, WellQueued, IsEmptyQueue, Longest;
    GoodIsNotThrown(x, y.world, [], y.queue, []);
    if IsEmptyQueue(y.queue) {
      MovedNowhere(x, y.world.store);
    } else {
      RoundIsGood(x, y);
      RoundShrinksQueue(x.env, y);
      RoundsAreGood(x, Round(x.env, y));
      MovedTransitive(x, y.world.store, Round(x.env, y).world.store, Rounds(x.env, y).world.store);
    }
  }
}
