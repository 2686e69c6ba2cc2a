/** The objects that synchronise certificate events with the blockchain. */
module BlockchainSynchronization {
  import opened CertificateEvents
  import opened CertificateStore
  import opened CertificateStoreFacts
  import opened BatchQueue
  import opened SyncProtocol
  import Service = OffChainCertificateService

  // ----- the queue

  lemma GroupsStep(events: seq<Event>, e: Event)
    ensures var groups := GroupByCertificate(events);
            GroupByCertificate(events + [e]) ==
            groups[e.certificateId := (if e.certificateId in groups then groups[e.certificateId] else []) + [e]]
  {
    hide LogOf;
    LogOfEmpty(events, e.certificateId);
    var longer := events + [e];
    assert longer[|events|].certificateId == e.certificateId;
    assert CertificatesOf(longer) == CertificatesOf(events) + {e.certificateId} by {
      assert forall i :: 0 <= i < |events| ==> events[i] == longer[i];
    }
    forall id
      ensures LogOf(longer, id) == if e.certificateId == id then LogOf(events, id) + [e] else LogOf(events, id)
    {
      LogOfAppend(events, e, id);
    }
  }

  /** The queue while its entries are visited: those of the given ids have not been visited yet. */
  function PartlyPopped(entries: Queue, ids: set<CertId>): Queue {
    map id | id in entries && (id in ids || entries[id] != []) :: if id in ids then entries[id] else entries[id][1..]
  }

  lemma PartlyPoppedStep(entries: Queue, ids: set<CertId>, id: CertId)
    requires id in ids && ids <= entries.Keys
    ensures PartlyPopped(entries, ids - {id}) ==
            if entries[id] != [] then PartlyPopped(entries, ids)[id := entries[id][1..]]
            else PartlyPopped(entries, ids) - {id}
  {
  }

  lemma AscendingStep(visited: seq<CertId>, ids: set<CertId>)
    requires ids != {}
    ensures Least(ids) in ids
    ensures visited + Ascending(ids) == visited + [Least(ids)] + Ascending(ids - {Least(ids)})
  {
  }

  lemma HeadsStep(entries: Queue, visited: seq<CertId>, id: CertId)
    ensures Heads(entries, visited + [id]) == Heads(entries, visited) + HeadOf(entries, id)
  {
    assert (visited + [id])[..|visited|] == visited;
  }

  method LeastOf(ids: set<CertId>) returns (m: CertId)
    requires ids != {}
    ensures m == Least(ids)
  {
    var rest := ids;
    m :| m in rest;
    rest := rest - {m};
    while rest != {}
      invariant rest <= ids && m in ids && m !in rest
      invariant forall x :: x in ids ==> x in rest || m <= x
    {
      var x :| x in rest;
      if x < m { m := x; }
      rest := rest - {x};
    }
    assert m <= Least(ids);
  }

  class EventsBatchQueue {
    var eventsToProcess: Queue

    constructor (events: seq<Event>)
      ensures eventsToProcess == QueueOf(events)
    {
      eventsToProcess := map[];
      new;
      var sorted := SortByTime(events);
      for i := 0 to |sorted|
        invariant eventsToProcess == GroupByCertificate(sorted[..i])
      {
        hide GroupByCertificate;
        var e := sorted[i];
        assert sorted[..i + 1] == sorted[..i] + [e];
        GroupsStep(sorted[..i], e);
        var group := if e.certificateId in eventsToProcess then eventsToProcess[e.certificateId] else [];
        eventsToProcess := eventsToProcess[e.certificateId := group + [e]];
      }
      assert sorted[..|sorted|] == sorted;
    }

    /** Takes the first waiting event of every certificate, in the order of the certificates' ids. */
    method PopBatch() returns (batch: seq<Event>)
      modifies this
      ensures batch == PoppedBatch(old(eventsToProcess))
      ensures eventsToProcess == AfterPop(old(eventsToProcess))
    {
      var entries := eventsToProcess;
      var ids := entries.Keys;
      ghost var visited: seq<CertId> := [];
      batch := [];
      assert eventsToProcess == PartlyPopped(entries, ids);
      while ids != {}
        invariant ids <= entries.Keys
        invariant visited + Ascending(ids) == Ascending(entries.Keys)
        invariant batch == Heads(entries, visited)
        invariant eventsToProcess == PartlyPopped(entries, ids)
        decreases |ids|
      {
        hide Least, Ascending, Heads, PartlyPopped;
        var id := LeastOf(ids);
        AscendingStep(visited, ids);
        HeadsStep(entries, visited, id);
        PartlyPoppedStep(entries, ids, id);
        if entries[id] != [] {
          eventsToProcess := eventsToProcess[id := entries[id][1..]];
          batch := batch + [entries[id][0]];
        } else {
          eventsToProcess := eventsToProcess - {id};
        }
        visited := visited + [id];
        ids := ids - {id};
      }
      assert visited == Ascending(entries.Keys);
    }

    method IsEmpty() returns (empty: bool)
      ensures empty == IsEmptyQueue(eventsToProcess)
    {
      empty := IsEmptyQueue(eventsToProcess);
    }

    method RemoveEventsForCertificateIds(ids: seq<CertId>)
      modifies this
      ensures eventsToProcess == Without(old(eventsToProcess), ids)
    {
      for i := 0 to |ids|
        invariant eventsToProcess == Without(old(eventsToProcess), ids[..i])
      {
        eventsToProcess := eventsToProcess - {ids[i]};
      }
    }
  }

  // ----- the blockchain, and the requests that arrive while it is called

  class Blockchain {
    const env: Env
    const service: Service.OffChainCertificateService
    var calls: nat
    var accepted: seq<Event>
    var history: seq<Call>

    constructor (env: Env, service: Service.OffChainCertificateService)
      ensures this.env == env && this.service == service && calls == 0 && accepted == [] && history == []
    {
      this.env, this.service, calls, accepted, history := env, service, 0, [], [];
    }

    ghost predicate Valid() {
      && service.Valid() && service.clock == env.clock
      && service.certEventRepo.maxSynchronizationAttemptsForEvent == env.max
    }

    ghost function View(): World
      reads this, service.certCommandRepo, service.certEventRepo, service.readModelRepo
    {
      World(service.View(), Chain(calls, accepted, history), false)
    }

    method Answer(r: Request)
      requires Valid()
      modifies service.certCommandRepo, service.certEventRepo, service.readModelRepo
      ensures service.View() == Serve(env.clock, old(service.View()), r)
    {
      match r
      case IssueOne(command) =>
        var _, _ := service.IssueWithoutValidation(command);
      case OnOne(command) =>
        var _ := service.TransferOrClaimWithoutValidation(command);
      case IssueMany(commands) =>
        var _, _ := service.BatchIssueWithoutValidation(commands);
      case OnMany(commands) =>
        var _ := service.BatchTransferOrClaim(commands);
    }

    /** One call: requests are answered while it is under way, and it then succeeds or fails as a whole. */
    method Send(call: Call) returns (m: Moment)
      requires Valid()
      modifies this, service.certCommandRepo, service.certEventRepo, service.readModelRepo
      ensures m == env.script(old(calls))
      ensures service.View() == ServeAll(env.clock, old(service.View()), m.arrivals)
      ensures calls == old(calls) + 1 && history == old(history) + [call]
      ensures accepted == if m.accepted then old(accepted) + call.events else old(accepted)
    {
      hide Serve;
      m := env.script(calls);
      for i := 0 to |m.arrivals|
        invariant service.View() == ServeAll(env.clock, old(service.View()), m.arrivals[..i])
        invariant calls == old(calls) && accepted == old(accepted) && history == old(history)
      {
        assert m.arrivals[..i + 1][..i] == m.arrivals[..i];
        Answer(m.arrivals[i]);
      }
      assert m.arrivals[..|m.arrivals|] == m.arrivals;
      calls, history := calls + 1, history + [call];
      if m.accepted {
        accepted := accepted + call.events;
      }
    }
  }

  // ----- the handlers

  /**
   * A handler for one kind of events. The three kinds differ in their payloads, their block sizes and
   * in what they leave out.
   */
  class PersistHandler {
    const kind: Kind
    const chain: Blockchain

    constructor (kind: Kind, chain: Blockchain)
      ensures this.kind == kind && this.chain == chain
    {
      this.kind, this.chain := kind, chain;
    }

    /** Sends a block; if that fails, or a record of its success is refused, an error is recorded for every event. */
    method SynchronizeBatchBlock(events: seq<Event>, idMap: map<CertId, int>)
      returns (failed: seq<CertId>, thrown: bool)
      requires chain.Valid()
      modifies chain, chain.service.certCommandRepo, chain.service.certEventRepo, chain.service.readModelRepo
      ensures (chain.View().(thrown := thrown), failed) == SendBlock(chain.env, kind, idMap, old(chain.View()), events)
    {
      hide Persist, ServeAll;
      var service := chain.service;
      var call := Call(kind, events, TargetsIn(idMap, events));
      var m := chain.Send(call);
      var ok := false;
      if m.accepted {
        ok := true;
        ghost var arrived := service.View();
        for i := 0 to |events|
          invariant RecordSuccesses(chain.env.clock, kind, m, arrived, events, 0) ==
                    (var r := RecordSuccesses(chain.env.clock, kind, m, service.View(), events, i); (r.0, ok && r.1))
          invariant chain.calls == old(chain.calls) + 1 && chain.accepted == old(chain.accepted) + events
          invariant chain.history == old(chain.history) + [call]
        {
          var error := service.RecordOutcome(events[i].certificateId, SuccessPayload(kind, m, i, events[i]));
          ok := ok && error.None?;
        }
      }
      if ok {
        return [], false;
      }
      var caught := true;
      ghost var recorded := service.View();
      for i := 0 to |events|
        invariant RecordErrors(chain.env.clock, recorded, events, 0) ==
                  (var r := RecordErrors(chain.env.clock, service.View(), events, i); (r.0, caught && r.1))
        invariant chain.calls == old(chain.calls) + 1 && chain.history == old(chain.history) + [call]
        invariant chain.accepted == if m.accepted then old(chain.accepted) + events else old(chain.accepted)
      {
        var error := service.RecordOutcome(events[i].certificateId, PersistError(events[i].id));
        caught := caught && error.None?;
      }
      return CertificateIds(events), !caught;
    }

    method HandleBatch(events: seq<Event>, idMap: map<CertId, int>) returns (failed: seq<CertId>, thrown: bool)
      requires chain.Valid() && 1 <= chain.env.sizes(kind)
      modifies chain, chain.service.certCommandRepo, chain.service.certEventRepo, chain.service.readModelRepo
      ensures (chain.View().(thrown := thrown), failed) ==
              HandleBlocks(chain.env, kind, idMap, old(chain.View()), Chunk(events, chain.env.sizes(kind)), [])
    {
      hide SendBlock, ToSend;
      var blocks := Chunk(events, chain.env.sizes(kind));
      failed := [];
      for i := 0 to |blocks|
        invariant HandleBlocks(chain.env, kind, idMap, old(chain.View()), blocks, []) ==
                  HandleBlocks(chain.env, kind, idMap, chain.View(), blocks[i..], failed)
      {
        assert blocks[i..][1..] == blocks[i + 1..];
        var ids, escaped := SynchronizeBatchBlock(ToSend(kind, blocks[i], failed), idMap);
        failed := failed + ids;
        if escaped {
          return failed, true;
        }
      }
      thrown := false;
    }
  }

  // ----- the strategy

  class BatchSynchronizeStrategy {
    const chain: Blockchain
    const issuancePersistHandler: PersistHandler
    const transferPersistHandler: PersistHandler
    const claimPersistHandler: PersistHandler

    constructor (chain: Blockchain)
      ensures Valid() && this.chain == chain
    {
      this.chain := chain;
      issuancePersistHandler := new PersistHandler(Issuances, chain);
      transferPersistHandler := new PersistHandler(Transfers, chain);
      claimPersistHandler := new PersistHandler(Claims, chain);
    }

    ghost predicate Valid() {
      && issuancePersistHandler.chain == chain && issuancePersistHandler.kind == Issuances
      && transferPersistHandler.chain == chain && transferPersistHandler.kind == Transfers
      && claimPersistHandler.chain == chain && claimPersistHandler.kind == Claims
    }

    /** The events whose certificates have a blockchain id, and those ids. */
    method GetEventsWithBlockchainId(events: seq<Event>) returns (identified: seq<Event>, idMap: map<CertId, int>)
      ensures identified == WithBlockchainId(chain.View().store, events)
      ensures idMap == BlockchainIds(chain.View().store.events, CertificatesOf(events))
    {
      var ids := CertificatesOf(events);
      idMap := chain.service.certEventRepo.GetBlockchainIdMap(ids);
      identified := [];
      for i := 0 to |events|
        invariant identified == WithBlockchainId(chain.View().store, events[..i])
      {
        assert events[..i + 1][..i] == events[..i];
        InIdMap(chain.service.certEventRepo.eventDb, ids, events[i].certificateId);
        if events[i].certificateId in idMap {
          identified := identified + [events[i]];
        }
      }
      assert events[..|events|] == events;
    }

    /** One kind of events of a batch is sent, and the certificates that failed leave the queue. */
    method SynchronizeKind(handler: PersistHandler, batch: seq<Event>, queue: EventsBatchQueue, failed: seq<CertId>)
      returns (failed': seq<CertId>, thrown: bool)
      requires chain.Valid() && handler.chain == chain && 1 <= chain.env.sizes(handler.kind)
      modifies chain, chain.service.certCommandRepo, chain.service.certEventRepo, chain.service.readModelRepo, queue
      ensures Sync(chain.View().(thrown := thrown), queue.eventsToProcess, failed') ==
              Phase(chain.env, handler.kind, batch, Sync(old(chain.View()), old(queue.eventsToProcess), failed))
    {
      hide HandleBlocks, Chunk, WithBlockchainId, NotFailed, Only, BlockchainIds;
      var events, idMap := NotFailed(Only(handler.kind, batch), failed), map[];
      if !handler.kind.Issuances? {
        events, idMap := GetEventsWithBlockchainId(events);
      }
      var ids, escaped := handler.HandleBatch(events, idMap);
      queue.RemoveEventsForCertificateIds(ids);
      return if handler.kind.Claims? then failed else failed + ids, escaped;
    }

    /** Pops one batch and sends its issuances, then its transfers, then its claims. */
    method SynchronizeBatch(queue: EventsBatchQueue, failed: seq<CertId>) returns (failed': seq<CertId>, thrown: bool)
      requires chain.Valid() && Valid() && Proper(chain.env)
      modifies chain, chain.service.certCommandRepo, chain.service.certEventRepo, chain.service.readModelRepo, queue
      ensures var after := Round(chain.env, Sync(old(chain.View()), old(queue.eventsToProcess), failed));
              && chain.View().(thrown := thrown) == after.world
              && (!thrown ==> Sync(chain.View(), queue.eventsToProcess, failed') == after)
    {
      hide Phase, PoppedBatch, AfterPop;
      var batch := queue.PopBatch();
      ghost var popped := Sync(chain.View(), queue.eventsToProcess, failed);
      failed', thrown := SynchronizeKind(issuancePersistHandler, batch, queue, failed);
      ghost var issued := Phase(chain.env, Issuances, batch, popped);
      if thrown {
        ThrownEnds(chain.env, batch, issued);
        return;
      }
      failed', thrown := SynchronizeKind(transferPersistHandler, batch, queue, failed');
      if thrown {
        ThrownEnds(chain.env, batch, Phase(chain.env, Transfers, batch, issued));
        return;
      }
      failed', thrown := SynchronizeKind(claimPersistHandler, batch, queue, failed');
    }

    method Synchronize(events: seq<Event>) returns (thrown: bool)
      requires chain.Valid() && Valid() && Proper(chain.env)
      modifies chain, chain.service.certCommandRepo, chain.service.certEventRepo, chain.service.readModelRepo
      ensures chain.View().(thrown := thrown) == SyncProtocol.Synchronize(chain.env, old(chain.View()), events)
    {
      hide Round, Longest, IsEmptyQueue, QueueOf;
      var queue := new EventsBatchQueue(events);
      var failed: seq<CertId> := [];
      ghost var start := Sync(chain.View(), queue.eventsToProcess, failed);
      var isEmpty := queue.IsEmpty();
      while !isEmpty
        invariant fresh(queue) && chain.Valid() && isEmpty == IsEmptyQueue(queue.eventsToProcess)
        invariant Rounds(chain.env, start) == Rounds(chain.env, Sync(chain.View(), queue.eventsToProcess, failed))
        decreases Longest(queue.eventsToProcess)
      {
        ghost var y := Sync(chain.View(), queue.eventsToProcess, failed);
        RoundShrinksQueue(chain.env, y);
        failed, thrown := SynchronizeBatch(queue, failed);
        ThrownStops(chain.env, Round(chain.env, y));
        if thrown { return; }
        isEmpty := queue.IsEmpty();
      }
      thrown := false;
    }
  }

  /** Once an exception has escaped, the phases that would follow change nothing in the world. */
  lemma ThrownEnds(env: Env, batch: seq<Event>, y: Sync)
    requires Proper(env) && y.world.thrown
    ensures Phase(env, Claims, batch, y).world == y.world
    ensures Phase(env, Claims, batch, Phase(env, Transfers, batch, y)).world == y.world
  {
    hide Chunk, PhaseEvents, PhaseIds;
  }

  lemma ThrownStops(env: Env, y: Sync)
    requires Proper(env)
    ensures y.world.thrown ==> Rounds(env, y) == y
  {
  }

  // ----- the job

  class BlockchainSynchronizeTask {
    const strategy: BatchSynchronizeStrategy

    constructor (strategy: BatchSynchronizeStrategy)
      ensures this.strategy == strategy
    {
      this.strategy := strategy;
    }

    /** Selects and synchronises until nothing is selected, at most fifty times. */
    method SynchronizeWithBlockchain() returns (thrown: bool)
      requires strategy.chain.Valid() && strategy.Valid() && Proper(strategy.chain.env)
      modifies strategy.chain, strategy.chain.service.certCommandRepo
      modifies strategy.chain.service.certEventRepo, strategy.chain.service.readModelRepo
      ensures strategy.chain.View().(thrown := thrown) ==
              Task(strategy.chain.env, old(strategy.chain.View()), 50)
    {
      hide SyncProtocol.Synchronize, Select;
      var chain := strategy.chain;
      var i: nat := 0;
      while i < PASSES_PER_TASK
        invariant i <= PASSES_PER_TASK
        invariant Task(chain.env, old(chain.View()), PASSES_PER_TASK) ==
                  Task(chain.env, chain.View(), PASSES_PER_TASK - i)
      {
        var events := chain.service.certEventRepo.FindAllToProcess(PASS_LIMIT);
        SameSelection(chain.service.certEventRepo.View(), chain.service.View(), chain.env.max, PASS_LIMIT);
        if events == [] {
          break;
        }
        thrown := strategy.Synchronize(events);
        if thrown { return; }
        i := i + 1;
      }
      thrown := false;
    }
  }

  lemma {:induction false} SameEligible(s: Store, s': Store, max: nat, events: seq<Event>)
    requires s.events == s'.events && s.attempts == s'.attempts
    ensures Eligible(s, max, events) == Eligible(s', max, events)
  {
    if events != [] {
      SameEligible(s, s', max, events[..|events| - 1]);
    }
  }

  /** What is selected depends on the events and their rows only. */
  lemma SameSelection(s: Store, s': Store, max: nat, limit: nat)
    requires s.events == s'.events && s.attempts == s'.attempts
    ensures Select(s, max, limit) == Select(s', max, limit)
  {
    SameEligible(s, s', max, s.events);
  }
}
