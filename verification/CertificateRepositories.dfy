/** The repositories behind the off-chain certificates, as objects that are updated in place. */
module CertificateRepositories {
  import opened CertificateEvents
  import opened CertificateAggregate
  import opened CertificateStore
  import opened SyncProtocol
  import opened SyncLog

  class CommandRepository {
    var db: seq<Command>

    constructor ()
      ensures db == []
    {
      db := [];
    }

    method Save(command: Command)
      modifies this
      ensures db == old(db) + [command]
    {
      db := db + [command];
    }

    method SaveMany(commands: seq<Command>)
      modifies this
      ensures db == old(db) + commands
    {
      for i := 0 to |commands|
        invariant db == old(db) + commands[..i]
      {
        db := db + [commands[i]];
      }
    }
  }

  class CertificateEventRepository {
    var internalCertificateIdSerial: nat
    var eventDb: seq<Event>
    var attemptDb: Attempts
    const maxSynchronizationAttemptsForEvent: nat

    constructor (max: nat)
      ensures internalCertificateIdSerial == 0 && eventDb == [] && attemptDb == map[]
      ensures maxSynchronizationAttemptsForEvent == max
    {
      internalCertificateIdSerial, eventDb, attemptDb := 0, [], map[];
      maxSynchronizationAttemptsForEvent := max;
    }

    method GetByInternalCertificateId(id: CertId) returns (events: seq<Event>)
      ensures events == LogOf(eventDb, id)
    {
      events := [];
      for i := 0 to |eventDb|
        invariant events == LogOf(eventDb[..i], id)
      {
        assert eventDb[..i + 1][..i] == eventDb[..i];
        if eventDb[i].certificateId == id {
          events := events + [eventDb[i]];
        }
      }
      assert eventDb[..|eventDb|] == eventDb;
    }

    method Save(event: Event) returns (saved: Event)
      modifies `eventDb
      ensures saved == event.(id := |old(eventDb)| + 1)
      ensures eventDb == old(eventDb) + [saved]
    {
      saved := event.(id := |eventDb| + 1);
      eventDb := eventDb + [saved];
    }

    method SaveMany(events: seq<Event>) returns (saved: seq<Event>)
      modifies `eventDb
      ensures |saved| == |events|
      ensures forall i :: 0 <= i < |events| ==> saved[i] == events[i].(id := |old(eventDb)| + i + 1)
      ensures eventDb == old(eventDb) + saved
    {
      saved := [];
      for i := 0 to |events|
        invariant |saved| == i && eventDb == old(eventDb) + saved
        invariant forall k :: 0 <= k < i ==> saved[k] == events[k].(id := |old(eventDb)| + k + 1)
      {
        var entity := events[i].(id := |eventDb| + 1);
        eventDb := eventDb + [entity];
        saved := saved + [entity];
      }
    }

    method CreateSynchronizationAttempt(eventId: nat)
      modifies `attemptDb
      ensures attemptDb == old(attemptDb)[eventId := Attempt(0, false)]
    {
      attemptDb := attemptDb[eventId := Attempt(0, false)];
    }

    method CreateSynchronizationAttempts(events: seq<Event>)
      requires forall i :: 0 <= i < |events| ==> ToSynchronize(events[i])
      modifies `attemptDb
      ensures attemptDb == NewAttempts(old(attemptDb), events)
    {
      for i := 0 to |events|
        invariant attemptDb == NewAttempts(old(attemptDb), events[..i])
      {
        assert events[..i + 1][..i] == events[..i];
        attemptDb := attemptDb[events[i].id := Attempt(0, false)];
      }
      assert events[..|events|] == events;
    }

    /** The rows that exist under the given ids are read, counted up and written back. */
    method UpdateAttempt(eventIds: seq<nat>, error: bool)
      modifies `attemptDb
      ensures attemptDb == CertificateStore.UpdateAttempt(old(attemptDb), eventIds, error)
    {
      var updated := map[];
      for i := 0 to |eventIds|
        invariant forall id :: id in updated <==> id in attemptDb && id in eventIds[..i]
        invariant forall id :: id in updated ==> updated[id] == Attempt(attemptDb[id].count + 1, error)
        invariant attemptDb == old(attemptDb)
      {
        if eventIds[i] in attemptDb {
          updated := updated[eventIds[i] := Attempt(attemptDb[eventIds[i]].count + 1, error)];
        }
      }
      attemptDb := attemptDb + updated;
    }

    ghost function View(): Store
      reads this
    {
      Store([], eventDb, attemptDb, internalCertificateIdSerial, map[])
    }

    method FailedCertificates() returns (ids: set<CertId>)
      ensures forall id :: id in ids <==> FailedCertificate(View(), maxSynchronizationAttemptsForEvent, id)
    {
      ids := {};
      for i := 0 to |eventDb|
        invariant forall id :: id in ids <==>
                    exists k :: 0 <= k < i && eventDb[k].certificateId == id && eventDb[k].id in attemptDb
                                && attemptDb[eventDb[k].id].count >= maxSynchronizationAttemptsForEvent
      {
        var e := eventDb[i];
        if e.id in attemptDb && attemptDb[e.id].count >= maxSynchronizationAttemptsForEvent {
          ids := ids + {e.certificateId};
        }
      }
    }

    method FindAllToProcess(limit: nat) returns (events: seq<Event>)
      ensures events == Select(View(), maxSynchronizationAttemptsForEvent, limit)
    {
      var failed := FailedCertificates();
      events := [];
      for i := 0 to |eventDb|
        invariant events == Eligible(View(), maxSynchronizationAttemptsForEvent, eventDb[..i])
      {
        assert eventDb[..i + 1][..i] == eventDb[..i];
        var e := eventDb[i];
        if e.id in attemptDb && e.certificateId !in failed {
          var row := attemptDb[e.id];
          if row.count == 0 || (row.error && row.count < maxSynchronizationAttemptsForEvent) {
            events := events + [e];
          }
        }
      }
      assert eventDb[..|eventDb|] == eventDb;
      events := FirstOf(SortByTime(events), limit);
    }

    method GetBlockchainIdMap(ids: set<CertId>) returns (idMap: map<CertId, int>)
      ensures idMap == BlockchainIds(eventDb, ids)
    {
      idMap := map[];
      for i := 0 to |eventDb|
        invariant idMap == BlockchainIds(eventDb[..i], ids)
      {
        assert eventDb[..i + 1][..i] == eventDb[..i];
        if eventDb[i].payload.IssuancePersisted? && eventDb[i].certificateId in ids {
          idMap := idMap[eventDb[i].certificateId := eventDb[i].payload.blockchainCertificateId];
        }
      }
      assert eventDb[..|eventDb|] == eventDb;
    }

    method GetNextInternalCertificateId() returns (id: CertId)
      modifies `internalCertificateIdSerial
      ensures internalCertificateIdSerial == old(internalCertificateIdSerial) + 1 == id
    {
      internalCertificateIdSerial := internalCertificateIdSerial + 1;
      id := internalCertificateIdSerial;
    }
  }

  /** Only events to synchronise get rows. */
  lemma {:induction false} OnlyOutgoingGetRows(attempts: Attempts, es: seq<Event>)
    ensures NewAttempts(attempts, Outgoing(es)) == NewAttempts(attempts, es)
    ensures forall i :: 0 <= i < |Outgoing(es)| ==> ToSynchronize(Outgoing(es)[i])
  {
    if es != [] {
      var n := |es| - 1;
      OnlyOutgoingGetRows(attempts, es[..n]);
      if ToSynchronize(es[n]) {
        assert Outgoing(es)[..|Outgoing(es[..n])|] == Outgoing(es[..n]);
      } else {
        assert Outgoing(es) == Outgoing(es[..n]);
      }
    }
  }

  /** Stores events together with the rows of their attempts. */
  class CertificateEventService {
    const repository: CertificateEventRepository

    constructor (repository: CertificateEventRepository)
      ensures this.repository == repository
    {
      this.repository := repository;
    }

    method Save(event: Event) returns (saved: Event)
      modifies repository`eventDb, repository`attemptDb
      ensures saved == event.(id := |old(repository.eventDb)| + 1)
      ensures repository.eventDb == old(repository.eventDb) + [saved]
      ensures repository.attemptDb ==
              if ToSynchronize(saved) then old(repository.attemptDb)[saved.id := Attempt(0, false)]
              else old(repository.attemptDb)
    {
      saved := repository.Save(event);
      if ToSynchronize(saved) {
        repository.CreateSynchronizationAttempt(saved.id);
      }
    }

    method SaveMany(events: seq<Event>) returns (saved: seq<Event>)
      modifies repository`eventDb, repository`attemptDb
      ensures |saved| == |events|
      ensures forall i :: 0 <= i < |events| ==> saved[i] == events[i].(id := |old(repository.eventDb)| + i + 1)
      ensures repository.eventDb == old(repository.eventDb) + saved
      ensures repository.attemptDb == NewAttempts(old(repository.attemptDb), saved)
    {
      saved := repository.SaveMany(events);
      OnlyOutgoingGetRows(repository.attemptDb, saved);
      repository.CreateSynchronizationAttempts(Outgoing(saved));
    }
  }

  /** The i-th model is the last one with its id among the first n. */
  ghost predicate IsLast(models: seq<Certificate>, n: int, i: int)
    requires n <= |models|
  {
    && 0 <= i < n
    && forall j :: i < j < n ==> models[j].internalCertificateId != models[i].internalCertificateId
  }

  ghost predicate HasModel(models: seq<Certificate>, n: int, id: CertId)
    requires n <= |models|
  {
    exists i :: 0 <= i < n && models[i].internalCertificateId == id
  }

  class CertificateReadModelRepository {
    var db: map<CertId, Certificate>

    constructor ()
      ensures db == map[]
    {
      db := map[];
    }

    method Save(model: Certificate)
      modifies this
      ensures db == old(db)[model.internalCertificateId := model]
    {
      db := db[model.internalCertificateId := model];
    }

    /** Later models overwrite earlier ones with the same id, and all other entries stay. */
    method SaveMany(models: seq<Certificate>)
      modifies this
      ensures db.Keys == old(db).Keys + set i | 0 <= i < |models| :: models[i].internalCertificateId
      ensures forall i :: IsLast(models, |models|, i) ==> db[models[i].internalCertificateId] == models[i]
      ensures forall id :: id in old(db) && !HasModel(models, |models|, id) ==> db[id] == old(db)[id]
    {
      for n := 0 to |models|
        invariant db.Keys == old(db).Keys + set i | 0 <= i < n :: models[i].internalCertificateId
        invariant forall i :: IsLast(models, n, i) ==> db[models[i].internalCertificateId] == models[i]
        invariant forall id :: id in old(db) && !HasModel(models, n, id) ==> db[id] == old(db)[id]
      {
        db := db[models[n].internalCertificateId := models[n]];
      }
    }
  }
}
