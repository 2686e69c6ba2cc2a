/** What the operations of the off-chain certificate service keep true of the stored state. */
module CertificateStoreFacts {
  import opened Sequences
  import opened Wrappers
  import opened CertificateEvents
  import opened CertificateAggregate
  import opened CertificateStore

  lemma {:induction false} LogOfConcat(a: seq<Event>, b: seq<Event>, id: CertId)
    ensures LogOf(a + b, id) == LogOf(a, id) + LogOf(b, id)
  {
    if b == [] {
      assert a + b == a;
    } else {
      var n := |b| - 1;
      LogOfConcat(a, b[..n], id);
      assert (a + b)[..|a| + n] == a + b[..n];
    }
  }

  lemma LogOfAppend(a: seq<Event>, e: Event, id: CertId)
    ensures LogOf(a + [e], id) == LogOf(a, id) + if e.certificateId == id then [e] else []
  {
    assert (a + [e])[..|a|] == a;
  }

  /** A certificate's log lists its events in the order of the whole log. */
  lemma {:induction false} LogOfSorted(events: seq<Event>, id: CertId)
    requires Sorted(events)
    ensures Sorted(LogOf(events, id))
    ensures forall i :: 0 <= i < |LogOf(events, id)| ==>
            LogOf(events, id)[i] in events && LogOf(events, id)[i].certificateId == id
  {
    if events != [] {
      var n := |events| - 1;
      LogOfSorted(events[..n], id);
      assert forall e :: e in events[..n] ==> e in events;
      var before := LogOf(events[..n], id);
      forall i | 0 <= i < |before| ensures before[i].createdAt <= events[n].createdAt {
        var k :| 0 <= k < n && events[..n][k] == before[i];
      }
    }
  }

  lemma {:induction false} LogOfEmpty(events: seq<Event>, id: CertId)
    ensures LogOf(events, id) == [] <==> forall i :: 0 <= i < |events| ==> events[i].certificateId != id
  {
    if events != [] {
      LogOfEmpty(events[..|events| - 1], id);
    }
  }

  lemma LogIsSorted(clock: Clock, s: Store)
    requires NonDecreasing(clock) && LogInOrder(clock, s)
    ensures Sorted(s.events)
  {
  }

  /** Building an aggregate from a log in order needs no sorting. */
  lemma {:induction false} FromSortedEvents(log: seq<Event>)
    requires Sorted(log)
    ensures FromEvents(log).Ok? <==> Fold(log).Ok? && 0 <= ToPersist(log)
    ensures FromEvents(log).Ok? ==> FromEvents(log).value == Fold(log).value.(isSynced := ToPersist(log) == 0)
  {
    SortOfSorted(log);
  }

  lemma {:induction false} FoldKeepsId(log: seq<Event>)
    requires Fold(log).Ok?
    ensures Fold(log).value.internalCertificateId == log[0].certificateId
    ensures log[0].payload.Issued? && forall i :: 0 < i < |log| ==> !log[i].payload.Issued?
  {
    var n := |log| - 1;
    if n > 0 {
      FoldKeepsId(log[..n]);
      assert forall i :: 0 < i < n ==> log[i] == log[..n][i];
    }
  }

  // ----- single commands

  lemma SaveKeepsOrder(clock: Clock, s: Store, id: CertId, payload: Payload, c: Certificate)
    requires LogInOrder(clock, s) && id <= s.serial
    ensures LogInOrder(clock, Propagate(s, NewEvent(clock, s, id, payload), c))
  {
  }

  lemma SaveKeepsAttempts(clock: Clock, s: Store, id: CertId, payload: Payload, c: Certificate)
    requires HasAttempts(s) && LogInOrder(clock, s)
    ensures HasAttempts(Propagate(s, NewEvent(clock, s, id, payload), c))
  {
    var e := NewEvent(clock, s, id, payload);
    var s' := Propagate(s, e, c);
    assert s'.events == s.events + [e];
    forall i ensures i in s'.attempts <==> 1 <= i <= |s'.events| && ToSynchronize(s'.events[i - 1]) {
      assert i in s.attempts <==> 1 <= i <= |s.events| && ToSynchronize(s.events[i - 1]);
    }
  }

  lemma SaveKeepsModels(clock: Clock, s: Store, id: CertId, payload: Payload)
    requires ModelsAgree(s)
    requires Aggregate(s, NewEvent(clock, s, id, payload)).Ok?
    ensures var e := NewEvent(clock, s, id, payload); ModelsAgree(Propagate(s, e, Aggregate(s, e).value))
  {
    hide FromEvents, LogOf;
    var e := NewEvent(clock, s, id, payload);
    var s' := Propagate(s, e, Aggregate(s, e).value);
    forall other
      ensures if LogOf(s'.events, other) == [] then other !in s'.models
              else other in s'.models && FromEvents(LogOf(s'.events, other)) == Ok(s'.models[other])
    {
      LogOfAppend(s.events, e, other);
      if other == id {
        assert LogOf(s'.events, other) == LogOf(s.events, id) + [e];
        assert FromEvents(LogOf(s'.events, other)) == Aggregate(s, e);
      } else {
        assert LogOf(s'.events, other) == LogOf(s.events, other);
        assert other in s'.models <==> other in s.models;
      }
    }
  }

  /** The first event of a certificate is accepted exactly when it is its issuance. */
  lemma FirstEvent(s: Store, e: Event)
    requires LogOf(s.events, e.certificateId) == []
    ensures Aggregate(s, e).Ok? <==> e.payload.Issued?
  {
    assert LogOf(s.events, e.certificateId) + [e] == [e];
    FromSortedEvents([e]);
    assert [e][..0] == [];
    assert SumOf(SyncWeight, [e]) == SyncWeight(e);
  }

  /** Every single operation, accepted or not, keeps the read models in step with the log. */
  lemma AppendConsistent(clock: Clock, s: Store, command: Command, id: CertId, payload: Payload)
    requires Consistent(clock, s)
    requires payload.Issued? ==> id <= s.serial
    ensures Consistent(clock, Append(clock, s, command, id, payload).0)
  {
    hide FromEvents, LogOf, UpdateAttempt;
    var e := NewEvent(clock, s, id, payload);
    var recorded := Record(s, command);
    assert NewEvent(clock, recorded, id, payload) == e && Aggregate(recorded, e) == Aggregate(s, e);
    assert Consistent(clock, recorded);
    if Aggregate(s, e).Ok? {
      if LogOf(s.events, id) == [] {
        FirstEvent(s, e);
      } else {
        LogOfEmpty(s.events, id);
      }
      SaveKeepsOrder(clock, recorded, id, payload, Aggregate(s, e).value);
      SaveKeepsAttempts(clock, recorded, id, payload, Aggregate(s, e).value);
      SaveKeepsModels(clock, recorded, id, payload);
    }
  }

  lemma FreshIssuance(clock: Clock, s: Store, payload: Payload)
    requires LogInOrder(clock, s) && payload.Issued?
    ensures Aggregate(s, NewEvent(clock, s, s.serial + 1, payload)).Ok?
  {
    hide FromEvents;
    LogOfEmpty(s.events, s.serial + 1);
    FirstEvent(s, NewEvent(clock, s, s.serial + 1, payload));
  }

  /** An issuance is always accepted: the new certificate has no events yet. */
  lemma IssueAccepted(clock: Clock, s: Store, command: Command)
    requires Consistent(clock, s) && command.IssueCommand?
    ensures Issue(clock, s, command).1 == None
    ensures Consistent(clock, Issue(clock, s, command).0)
  {
    hide Aggregate, ModelsAgree, HasAttempts, Propagate;
    var counted := s.(serial := s.serial + 1);
    assert ModelsAgree(counted) && HasAttempts(counted) by { SerialIsFree(s, s.serial + 1); }
    FreshIssuance(clock, s, PayloadOf(command));
    SameAggregate(s, counted, NewEvent(clock, s, s.serial + 1, PayloadOf(command)));
    AppendConsistent(clock, counted, command, s.serial + 1, PayloadOf(command));
  }

  lemma SerialIsFree(s: Store, serial: nat)
    ensures ModelsAgree(s.(serial := serial)) == ModelsAgree(s)
    ensures HasAttempts(s.(serial := serial)) == HasAttempts(s)
  {
    hide FromEvents, LogOf;
  }

  lemma SameAggregate(s: Store, s': Store, e: Event)
    requires s.events == s'.events
    ensures Aggregate(s, e) == Aggregate(s', e)
  {
    hide FromEvents;
  }
}
