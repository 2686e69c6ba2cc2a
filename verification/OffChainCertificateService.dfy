/** The service that keeps commands, events, attempts and read models in step. */
module OffChainCertificateService {
  import opened StableSort
  import opened Wrappers
  import opened CertificateEvents
  import opened CertificateAggregate
  import opened CertificateStore
  import opened CertificateStoreFacts
  import opened CertificateBatch
  import opened CertificateRepositories

  /** The ids of the events whose outcome is recorded by some of the given events. */
  function PersistedIds(es: seq<Event>): seq<nat> {
    if es == [] then []
    else PersistedIds(es[..|es| - 1]) + PersistedEventId(es[|es| - 1].payload)
  }

  lemma {:induction false} NewEventsPersistNothing(es: seq<Event>)
    requires forall i :: 0 <= i < |es| ==> ToSynchronize(es[i])
    ensures PersistedIds(es) == []
  {
    if es != [] {
      NewEventsPersistNothing(es[..|es| - 1]);
    }
  }

  lemma {:induction false} LogOfOwn(es: seq<Event>, id: CertId)
    ensures forall i :: 0 <= i < |LogOf(es, id)| ==> LogOf(es, id)[i].certificateId == id
  {
    if es != [] {
      LogOfOwn(es[..|es| - 1], id);
    }
  }

  /** The certificate built from events of one certificate carries its id. */
  lemma AggregateHasId(log: seq<Event>, id: CertId)
    requires forall i :: 0 <= i < |log| ==> log[i].certificateId == id
    requires FromEvents(log).Ok?
    ensures FromEvents(log).value.internalCertificateId == id
  {
    var sorted := SortByTime(log);
    SortIsSort(log);
    FoldKeepsId(sorted);
    assert sorted[0] in multiset(sorted);
    var i := MemberAt(log, sorted[0]);
  }

  class OffChainCertificateService {
    const certCommandRepo: CommandRepository
    const certEventRepo: CertificateEventRepository
    const certificateEventService: CertificateEventService
    const readModelRepo: CertificateReadModelRepository
    const clock: Clock

    ghost predicate Valid() {
      certificateEventService.repository == certEventRepo
    }

    ghost function View(): Store
      reads certCommandRepo, certEventRepo, readModelRepo
    {
      Store(certCommandRepo.db, certEventRepo.eventDb, certEventRepo.attemptDb,
            certEventRepo.internalCertificateIdSerial, readModelRepo.db)
    }

    constructor (clock: Clock, max: nat)
      ensures Valid() && View() == EMPTY_STORE && this.clock == clock
      ensures certEventRepo.maxSynchronizationAttemptsForEvent == max
      ensures fresh(certCommandRepo) && fresh(certEventRepo) && fresh(readModelRepo)
    {
      var events := new CertificateEventRepository(max);
      certCommandRepo := new CommandRepository();
      certEventRepo := events;
      certificateEventService := new CertificateEventService(events);
      readModelRepo := new CertificateReadModelRepository();
      this.clock := clock;
    }

    // ----- single commands

    method CreateAggregate(newEvents: seq<Event>) returns (r: Result<Certificate, AggregateError>)
      requires newEvents != []
      ensures r == FromEvents(LogOf(certEventRepo.eventDb, newEvents[0].certificateId) + newEvents)
    {
      var previousEvents := certEventRepo.GetByInternalCertificateId(newEvents[0].certificateId);
      r := FromEvents(previousEvents + newEvents);
    }

    /** The read model is saved first, then the event with its row, then the row that the event updates. */
    method Propagate(event: Event, model: Certificate)
      requires Valid() && event.id == |certEventRepo.eventDb| + 1
      requires model.internalCertificateId == event.certificateId
      modifies certEventRepo, readModelRepo
      ensures View() == CertificateStore.Propagate(old(View()), event, model)
    {
      readModelRepo.Save(model);
      var saved := certificateEventService.Save(event);
      if IsPersistedEvent(saved) {
        certEventRepo.UpdateAttempt(PersistedEventId(saved.payload), saved.payload.PersistError?);
      } else {
        NothingToUpdate(certEventRepo.attemptDb, false);
      }
    }

    /** The steps that all single operations share once the command is recorded and the certificate's id is known. */
    method AppendEvent(ghost before: Store, command: Command, id: CertId, payload: Payload)
      returns (error: Option<AggregateError>)
      requires Valid() && View() == Record(before, command)
      modifies certEventRepo, readModelRepo
      ensures (View(), error) == Append(clock, before, command, id, payload)
    {
      var event := Event(|certEventRepo.eventDb| + 1, id, clock(|certEventRepo.eventDb|), payload);
      var aggregate := CreateAggregate([event]);
      assert aggregate == Aggregate(before, event);
      if aggregate.Err? {
        return Some(aggregate.error);
      }
      LogWithEventHasId(certEventRepo.eventDb, event);
      Propagate(event, aggregate.value);
      return None;
    }

    method IssueWithoutValidation(command: Command) returns (id: CertId, error: Option<AggregateError>)
      requires Valid() && command.IssueCommand?
      modifies certCommandRepo, certEventRepo, readModelRepo
      ensures (View(), error) == Issue(clock, old(View()), command)
      ensures id == old(View()).serial + 1
    {
      ghost var before := View();
      certCommandRepo.Save(command);
      id := certEventRepo.GetNextInternalCertificateId();
      error := AppendEvent(before.(serial := id), command, id, PayloadOf(command));
    }

    /** A transfer or a claim on one certificate. */
    method TransferOrClaimWithoutValidation(command: Command) returns (error: Option<AggregateError>)
      requires Valid() && OnCertificate(command)
      modifies certCommandRepo, certEventRepo, readModelRepo
      ensures (View(), error) == TransferOrClaim(clock, old(View()), command)
    {
      ghost var before := View();
      certCommandRepo.Save(command);
      error := AppendEvent(before, command, command.certificateId, PayloadOf(command));
    }

    /** Records the outcome of a call to the blockchain: an issuance, transfer or claim persisted, or an error. */
    method RecordOutcome(id: CertId, payload: Payload) returns (error: Option<AggregateError>)
      requires Valid()
      modifies certCommandRepo, certEventRepo, readModelRepo
      ensures (View(), error) == Persist(clock, old(View()), id, payload)
    {
      ghost var before := View();
      certCommandRepo.Save(RecordCommand(payload));
      error := AppendEvent(before, RecordCommand(payload), id, payload);
    }

    // ----- batches

    /** One aggregate for each group, or nothing when one of them is rejected. */
    method CreateAggregates(groups: map<CertId, seq<Event>>) returns (r: Option<seq<Certificate>>)
      requires forall id :: id in groups ==> groups[id] != []
      requires forall id :: id in groups ==> forall i :: 0 <= i < |groups[id]| ==> groups[id][i].certificateId == id
      ensures r.Some? <==> forall id :: id in groups ==> FromEvents(LogOf(certEventRepo.eventDb, id) + groups[id]).Ok?
      ensures r.Some? ==> AreAggregates(certEventRepo.eventDb, groups, groups.Keys, r.value)
    {
      hide FromEvents, LogOf;
      var aggregates: seq<Certificate> := [];
      var ids := groups.Keys;
      while ids != {}
        invariant ids <= groups.Keys
        invariant AreAggregates(certEventRepo.eventDb, groups, groups.Keys - ids, aggregates)
        decreases |ids|
      {
        var id :| id in ids;
        var aggregate := CreateAggregate(groups[id]);
        if aggregate.Err? {
          return None;
        }
        GroupHasId(certEventRepo.eventDb, groups, id);
        AreAggregatesStep(certEventRepo.eventDb, groups, groups.Keys - ids, aggregates, id);
        assert groups.Keys - ids + {id} == groups.Keys - (ids - {id});
        aggregates := aggregates + [aggregate.value];
        ids := ids - {id};
      }
      assert groups.Keys - ids == groups.Keys;
      return Some(aggregates);
    }

    method PropagateMany(es: seq<Event>, aggregates: seq<Certificate>)
      requires Valid()
      requires forall i :: 0 <= i < |es| ==> ToSynchronize(es[i]) && es[i].id == |certEventRepo.eventDb| + i + 1
      requires BatchAccepted(View(), es)
      requires AreAggregates(certEventRepo.eventDb, GroupByCertificate(es), CertificatesOf(es), aggregates)
      modifies certEventRepo, readModelRepo
      ensures View() == CertificateStore.PropagateMany(old(View()), es)
    {
      ghost var before := View();
      readModelRepo.SaveMany(aggregates);
      SavedModels(before, es, aggregates, readModelRepo.db);
      var saved := certificateEventService.SaveMany(es);
      assert saved == es;
      NewEventsPersistNothing(saved);
      certEventRepo.UpdateAttempt(PersistedIds(saved), false);
      NothingToUpdate(NewAttempts(before.attempts, es), false);
    }

    /** What follows the recording of a batch's commands. */
    method HandleEvents(es: seq<Event>) returns (accepted: bool)
      requires Valid()
      requires forall i :: 0 <= i < |es| ==> ToSynchronize(es[i]) && es[i].id == |certEventRepo.eventDb| + i + 1
      modifies certEventRepo, readModelRepo
      ensures accepted == BatchAccepted(old(View()), es)
      ensures accepted ==> View() == CertificateStore.PropagateMany(old(View()), es)
      ensures !accepted ==> View() == old(View())
    {
      var groups := GroupByCertificate(es);
      GroupsAreGroups(es);
      var aggregates := CreateAggregates(groups);
      assert aggregates.Some? <==> BatchAccepted(View(), es);
      if aggregates.None? {
        return false;
      }
      PropagateMany(es, aggregates.value);
      return true;
    }

    /** A batch of transfers or of claims: validated as a whole, then built again and propagated. */
    method BatchTransferOrClaim(commands: seq<Command>) returns (accepted: bool)
      requires Valid() && forall i :: 0 <= i < |commands| ==> OnCertificate(commands[i])
      modifies certCommandRepo, certEventRepo, readModelRepo
      ensures (View(), accepted) == HandleBatch(clock, old(View()), commands)
    {
      hide BatchEvents, BatchAccepted, CertificateStore.PropagateMany;
      ghost var before := View();
      if commands == [] {
        EmptyBatch(clock, before, commands, TargetsOf(commands));
        return true;
      }
      certCommandRepo.SaveMany(commands);
      var es := CreateEvents(commands, TargetsOf(commands));
      assert RecordAll(before, commands) == View();
      accepted := IsBatchValid(es);
      SameBatchEvents(clock, before, commands, TargetsOf(commands));
      SameGroups(before, commands, es);
      if accepted {
        accepted := HandleEvents(es);
      }
    }

    method IsBatchValid(es: seq<Event>) returns (valid: bool)
      ensures valid == BatchAccepted(View(), es)
    {
      GroupsAreGroups(es);
      var aggregates := CreateAggregates(GroupByCertificate(es));
      valid := aggregates.Some?;
    }

    method CreateEvents(commands: seq<Command>, ids: seq<CertId>) returns (es: seq<Event>)
      requires |ids| == |commands|
      ensures es == BatchEvents(clock, View(), commands, ids)
      ensures forall i :: 0 <= i < |es| ==>
                es[i].id == |certEventRepo.eventDb| + i + 1 && es[i].payload == PayloadOf(commands[i])
    {
      var n := |certEventRepo.eventDb|;
      es := seq(|commands|, i requires 0 <= i < |commands| =>
        Event(n + i + 1, ids[i], clock(n + i), PayloadOf(commands[i])));
    }

    method GenerateIds(n: nat) returns (ids: seq<CertId>)
      modifies certEventRepo
      ensures ids == FreshIds(old(View()).serial, n)
      ensures View() == old(View()).(serial := old(View()).serial + n)
    {
      ids := [];
      for i := 0 to n
        invariant ids == FreshIds(old(View()).serial, i)
        invariant View() == old(View()).(serial := old(View()).serial + i)
      {
        var id := certEventRepo.GetNextInternalCertificateId();
        assert FreshIds(old(View()).serial, i + 1) == FreshIds(old(View()).serial, i) + [id];
        ids := ids + [id];
      }
    }

    /** A batch of issuances, each under an id of its own. */
    method BatchIssueWithoutValidation(commands: seq<Command>) returns (ids: seq<CertId>, accepted: bool)
      requires Valid() && forall i :: 0 <= i < |commands| ==> commands[i].IssueCommand?
      modifies certCommandRepo, certEventRepo, readModelRepo
      ensures (View(), accepted) == BatchIssue(clock, old(View()), commands)
      ensures ids == FreshIds(old(View()).serial, |commands|)
    {
      hide BatchEvents, BatchAccepted, CertificateStore.PropagateMany;
      ghost var before := View();
      if commands == [] {
        EmptyBatch(clock, before, commands, []);
        assert FreshIds(before.serial, 0) == [];
        return [], true;
      }
      certCommandRepo.SaveMany(commands);
      ids := GenerateIds(|commands|);
      ghost var counted := before.(serial := before.serial + |commands|);
      assert View() == RecordAll(counted, commands);
      var es := CreateEvents(commands, ids);
      SameBatchEvents(clock, counted, commands, ids);
      SameGroups(counted, commands, es);
      accepted := HandleEvents(es);
    }
  }

  lemma LogWithEventHasId(events: seq<Event>, e: Event)
    requires FromEvents(LogOf(events, e.certificateId) + [e]).Ok?
    ensures FromEvents(LogOf(events, e.certificateId) + [e]).value.internalCertificateId == e.certificateId
  {
    hide LogOf, FromEvents;
    LogOfOwn(events, e.certificateId);
    AggregateHasId(LogOf(events, e.certificateId) + [e], e.certificateId);
  }

  lemma GroupHasId(events: seq<Event>, groups: map<CertId, seq<Event>>, id: CertId)
    requires id in groups && forall i :: 0 <= i < |groups[id]| ==> groups[id][i].certificateId == id
    requires FromEvents(LogOf(events, id) + groups[id]).Ok?
    ensures FromEvents(LogOf(events, id) + groups[id]).value.internalCertificateId == id
  {
    hide LogOf, FromEvents;
    LogOfOwn(events, id);
    AggregateHasId(LogOf(events, id) + groups[id], id);
  }

  /** The aggregates of the given certificates, one each, in any order. */
  ghost predicate AreAggregates(events: seq<Event>, groups: map<CertId, seq<Event>>, ids: set<CertId>,
                                aggregates: seq<Certificate>)
  {
    && ids <= groups.Keys
    && (forall i :: 0 <= i < |aggregates| ==>
          && aggregates[i].internalCertificateId in ids
          && (var id := aggregates[i].internalCertificateId;
              FromEvents(LogOf(events, id) + groups[id]) == Ok(aggregates[i])))
    && (forall i, j :: 0 <= i < j < |aggregates| ==>
        aggregates[i].internalCertificateId != aggregates[j].internalCertificateId)
    && (forall id :: id in ids ==> exists i :: 0 <= i < |aggregates| && aggregates[i].internalCertificateId == id)
  }

  lemma {:induction false} AreAggregatesStep(events: seq<Event>, groups: map<CertId, seq<Event>>, ids: set<CertId>,
                                             aggregates: seq<Certificate>, id: CertId)
    requires AreAggregates(events, groups, ids, aggregates) && id in groups && id !in ids
    requires FromEvents(LogOf(events, id) + groups[id]).Ok?
    requires FromEvents(LogOf(events, id) + groups[id]).value.internalCertificateId == id
    ensures AreAggregates(events, groups, ids + {id}, aggregates + [FromEvents(LogOf(events, id) + groups[id]).value])
  {
    hide LogOf, FromEvents;
    var longer := aggregates + [FromEvents(LogOf(events, id) + groups[id]).value];
    forall other | other in ids + {id}
      ensures exists i :: 0 <= i < |longer| && longer[i].internalCertificateId == other
    {
      if other == id {
        assert longer[|aggregates|].internalCertificateId == id;
      } else {
        var i :| 0 <= i < |aggregates| && aggregates[i].internalCertificateId == other;
        assert longer[i].internalCertificateId == other;
      }
    }
  }

  lemma GroupsAreGroups(es: seq<Event>)
    ensures forall id :: id in GroupByCertificate(es) ==> GroupByCertificate(es)[id] != []
    ensures forall id :: id in GroupByCertificate(es) ==>
              forall i :: 0 <= i < |GroupByCertificate(es)[id]| ==> GroupByCertificate(es)[id][i].certificateId == id
  {
    hide LogOf;
    forall id | id in GroupByCertificate(es)
      ensures LogOf(es, id) != [] && forall i :: 0 <= i < |LogOf(es, id)| ==> LogOf(es, id)[i].certificateId == id
    {
      LogOfEmpty(es, id);
      LogOfOwn(es, id);
    }
  }

  /** Recording commands does not change what a batch's aggregates are. */
  lemma SameGroups(s: Store, commands: seq<Command>, es: seq<Event>)
    ensures BatchAccepted(RecordAll(s, commands), es) == BatchAccepted(s, es)
  {
    hide FromEvents, LogOf;
    forall id ensures GroupAggregate(RecordAll(s, commands), es, id) == GroupAggregate(s, es, id) { }
  }

  lemma SameBatchEvents(clock: Clock, s: Store, commands: seq<Command>, ids: seq<CertId>)
    requires |ids| == |commands|
    ensures BatchEvents(clock, RecordAll(s, commands), commands, ids) == BatchEvents(clock, s, commands, ids)
  {
  }

  /** Saving the aggregates one after the other gives the read models that the batch should leave. */
  lemma SavedModels(s: Store, es: seq<Event>, aggregates: seq<Certificate>, db: map<CertId, Certificate>)
    requires BatchAccepted(s, es) && AreAggregates(s.events, GroupByCertificate(es), CertificatesOf(es), aggregates)
    requires db.Keys == s.models.Keys + set i | 0 <= i < |aggregates| :: aggregates[i].internalCertificateId
    requires forall i :: IsLast(aggregates, |aggregates|, i) ==>
               db[aggregates[i].internalCertificateId] == aggregates[i]
    requires forall id :: id in s.models && !HasModel(aggregates, |aggregates|, id) ==> db[id] == s.models[id]
    ensures db == CertificateStore.PropagateMany(s, es).models
  {
    hide LogOf, FromEvents, CertificatesOf;
    var models := CertificateStore.PropagateMany(s, es).models;
    forall id ensures id in db <==> id in models {
      if id in CertificatesOf(es) {
        var i :| 0 <= i < |aggregates| && aggregates[i].internalCertificateId == id;
      }
    }
    forall id | id in db ensures db[id] == models[id] {
      if id in CertificatesOf(es) {
        var i :| 0 <= i < |aggregates| && aggregates[i].internalCertificateId == id;
        assert db[id] == aggregates[i];
      }
    }
  }
}
