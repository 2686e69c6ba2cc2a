/** One certificate's log and the rows of its synchronisation attempts. */
module SyncLog {
  import opened CertificateEvents
  import opened CertificateAggregate
  import opened CertificateStore

  function Count(a: Attempts, id: nat): nat {
    if id in a then a[id].count else 0
  }

  /** The event was accepted by the blockchain, and that is recorded. */
  predicate Done(a: Attempts, id: nat) {
    id in a && a[id].count > 0 && !a[id].error
  }

  /** The events of a log that go to the blockchain. */
  function Outgoing(log: seq<Event>): seq<Event> {
    if log == [] then []
    else
      var n := |log| - 1;
      Outgoing(log[..n]) + if ToSynchronize(log[n]) then [log[n]] else []
  }

  /** The events of a log whose acceptance by the blockchain is recorded. */
  function Delivered(a: Attempts, log: seq<Event>): seq<Event> {
    if log == [] then []
    else
      var n := |log| - 1;
      Delivered(a, log[..n]) + if ToSynchronize(log[n]) && Done(a, log[n].id) then [log[n]] else []
  }

  /** How many events of a log are not yet recorded as accepted. */
  function Owed(a: Attempts, log: seq<Event>): nat {
    if log == [] then 0
    else
      var n := |log| - 1;
      Owed(a, log[..n]) + if ToSynchronize(log[n]) && !Done(a, log[n].id) then 1 else 0
  }

  // ----- what holds of every log

  ghost predicate Increasing(log: seq<Event>) {
    forall i, j :: 0 <= i < j < |log| ==> log[i].id < log[j].id
  }

  ghost predicate HasRows(a: Attempts, log: seq<Event>) {
    forall i :: 0 <= i < |log| ==> (log[i].id in a <==> ToSynchronize(log[i]))
  }

  /** An event is attempted only when everything that precedes it in its log is done. */
  ghost predicate InOrder(a: Attempts, log: seq<Event>) {
    forall i, j :: 0 <= i < j < |log| && ToSynchronize(log[i]) && Count(a, log[j].id) > 0 ==> Done(a, log[i].id)
  }

  ghost predicate Bounded(max: nat, a: Attempts, log: seq<Event>) {
    forall i :: 0 <= i < |log| ==>
      Count(a, log[i].id) <= max && (log[i].id in a && a[log[i].id].error ==> Count(a, log[i].id) > 0)
  }

  /** A certificate whose issuance is done has a blockchain id. */
  ghost predicate Identified(a: Attempts, log: seq<Event>) {
    forall i :: 0 <= i < |log| && log[i].payload.Issued? && Done(a, log[i].id) ==>
      exists k :: 0 <= k < |log| && log[k].payload.IssuancePersisted?
  }

  ghost predicate Sound(max: nat, a: Attempts, log: seq<Event>) {
    && Increasing(log) && HasRows(a, log)
    && InOrder(a, log) && Bounded(max, a, log) && Identified(a, log)
    && ToPersist(log) == Owed(a, log)
  }

  // ----- deliveries

  lemma {:induction false} DeliveredAndOwed(a: Attempts, log: seq<Event>)
    ensures |Delivered(a, log)| + Owed(a, log) == |Outgoing(log)|
    ensures Owed(a, log) == 0 <==> forall i :: 0 <= i < |log| && ToSynchronize(log[i]) ==> Done(a, log[i].id)
    ensures Owed(a, log) == 0 ==> Delivered(a, log) == Outgoing(log)
  {
    if log != [] {
      DeliveredAndOwed(a, log[..|log| - 1]);
    }
  }

  /** What has been delivered is the first part of what goes out. */
  lemma {:induction false} DeliveredIsPrefix(a: Attempts, log: seq<Event>)
    requires InOrder(a, log)
    ensures Delivered(a, log) <= Outgoing(log)
  {
    if log != [] {
      var n := |log| - 1;
      DeliveredIsPrefix(a, log[..n]);
      DeliveredAndOwed(a, log[..n]);
    }
  }

  lemma {:induction false} OutgoingFacts(log: seq<Event>)
    requires Increasing(log)
    ensures Increasing(Outgoing(log))
    ensures forall e :: e in Outgoing(log) <==> e in log && ToSynchronize(e)
  {
    if log != [] {
      var n := |log| - 1;
      OutgoingFacts(log[..n]);
      assert log == log[..n] + [log[n]];
      forall i | 0 <= i < |Outgoing(log[..n])| ensures Outgoing(log[..n])[i].id < log[n].id {
        assert Outgoing(log[..n])[i] in log[..n];
        var k :| 0 <= k < n && log[..n][k] == Outgoing(log[..n])[i];
      }
    }
  }

  ghost predicate Agree(a: Attempts, a': Attempts, log: seq<Event>) {
    forall i :: 0 <= i < |log| ==>
      (log[i].id in a <==> log[i].id in a') && (log[i].id in a ==> a[log[i].id] == a'[log[i].id])
  }

  lemma {:induction false} AgreeDelivers(a: Attempts, a': Attempts, log: seq<Event>)
    requires Agree(a, a', log)
    ensures Delivered(a, log) == Delivered(a', log) && Owed(a, log) == Owed(a', log)
  {
    if log != [] {
      AgreeDelivers(a, a', log[..|log| - 1]);
    }
  }

  // ----- the three ways in which a log and its rows change

  /** New events have been appended, none of them attempted yet. */
  ghost predicate Grew(a: Attempts, log: seq<Event>, a': Attempts, log': seq<Event>) {
    && log <= log' && Agree(a, a', log)
    && Increasing(log')
    && forall i :: |log| <= i < |log'| ==>
         ToSynchronize(log'[i]) && log'[i].id in a' && a'[log'[i].id] == Attempt(0, false)
  }

  /** The row of one event was counted up and the event that says so was appended. */
  ghost predicate Recorded(a: Attempts, log: seq<Event>, a': Attempts, log': seq<Event>, e: Event, error: bool) {
    && |log'| == |log| + 1 && log' == log + [log'[|log|]] && Increasing(log')
    && (if error then log'[|log|].payload.PersistError? else RecordsSuccess(log'[|log|]))
    && (!error && e.payload.Issued? ==> log'[|log|].payload.IssuancePersisted?)
    && log'[|log|].id !in a'
    && (forall i :: 0 <= i < |log| && log[i].id != e.id ==>
          (log[i].id in a <==> log[i].id in a') && (log[i].id in a ==> a[log[i].id] == a'[log[i].id]))
    && e.id in a && e.id in a' && a'[e.id] == Attempt(a[e.id].count + 1, error)
  }

  /** The event may be sent: it has attempts left and everything before it is done. */
  ghost predicate Ready(max: nat, a: Attempts, log: seq<Event>, e: Event) {
    && e in log && ToSynchronize(e) && !Done(a, e.id) && Count(a, e.id) < max
    && forall i :: 0 <= i < |log| && ToSynchronize(log[i]) && log[i].id < e.id ==> Done(a, log[i].id)
  }

  // ----- growth

  lemma GrewTransitive(a: Attempts, log: seq<Event>, a': Attempts, log': seq<Event>, a'': Attempts, log'': seq<Event>)
    requires Grew(a, log, a', log') && Grew(a', log', a'', log'')
    ensures Grew(a, log, a'', log'')
  {
    forall i | |log| <= i < |log''|
      ensures ToSynchronize(log''[i]) && log''[i].id in a'' && a''[log''[i].id] == Attempt(0, false)
    {
      if i < |log'| {
        assert log''[i] == log'[i];
      }
    }
    assert forall i :: 0 <= i < |log| ==> log[i] == log'[i];
  }

  lemma {:induction false} GrowthDelivers(a: Attempts, log: seq<Event>, a': Attempts, log': seq<Event>)
    requires Grew(a, log, a', log')
    ensures Delivered(a', log') == Delivered(a, log)
    ensures Owed(a', log') - Owed(a, log) == ToPersist(log') - ToPersist(log) == |log'| - |log|
    decreases |log'|
  {
    if |log'| == |log| {
      assert log' == log;
      AgreeDelivers(a, a', log);
    } else {
      var n := |log'| - 1;
      GrewShorter(a, log, a', log');
      GrowthDelivers(a, log, a', log'[..n]);
      assert ToSynchronize(log'[n]) && !Done(a', log'[n].id);
    }
  }

  lemma GrewShorter(a: Attempts, log: seq<Event>, a': Attempts, log': seq<Event>)
    requires Grew(a, log, a', log') && |log| < |log'|
    ensures Grew(a, log, a', log'[..|log'| - 1])
  {
  }

  lemma GrowthIsSound(max: nat, a: Attempts, log: seq<Event>, a': Attempts, log': seq<Event>)
    requires Sound(max, a, log) && Grew(a, log, a', log')
    ensures Sound(max, a', log')
  {
    hide Owed, Delivered, ToPersist;
    GrowthDelivers(a, log, a', log');
    assert forall i :: 0 <= i < |log| ==> log'[i] == log[i];
    assert InOrder(a', log') by {
      forall i, j | 0 <= i < j < |log'| && ToSynchronize(log'[i]) && Count(a', log'[j].id) > 0
        ensures Done(a', log'[i].id)
      {
        assert j < |log|;
      }
    }
    assert Identified(a', log') by {
      forall i | 0 <= i < |log'| && log'[i].payload.Issued? && Done(a', log'[i].id)
        ensures exists k :: 0 <= k < |log'| && log'[k].payload.IssuancePersisted?
      {
        assert i < |log|;
        var k :| 0 <= k < |log| && log[k].payload.IssuancePersisted?;
        assert log'[k].payload.IssuancePersisted?;
      }
    }
  }

  // ----- success and failure

  lemma {:induction false} DeliverNext(a: Attempts, a': Attempts, log: seq<Event>, k: nat)
    requires k < |log| && ToSynchronize(log[k]) && !Done(a, log[k].id) && Done(a', log[k].id)
    requires forall i :: 0 <= i < |log| && i != k ==> (Done(a, log[i].id) <==> Done(a', log[i].id))
    requires forall i :: k < i < |log| && ToSynchronize(log[i]) ==> !Done(a, log[i].id)
    ensures Delivered(a', log) == Delivered(a, log) + [log[k]]
    ensures Owed(a', log) == Owed(a, log) - 1
  {
    var n := |log| - 1;
    if k == n {
      SameDone(a, a', log[..n]);
    } else {
      DeliverNext(a, a', log[..n], k);
      assert log[n] in log;
    }
  }

  lemma {:induction false} SameDone(a: Attempts, a': Attempts, log: seq<Event>)
    requires forall i :: 0 <= i < |log| ==> (Done(a, log[i].id) <==> Done(a', log[i].id))
    ensures Delivered(a, log) == Delivered(a', log) && Owed(a, log) == Owed(a', log)
  {
    if log != [] {
      SameDone(a, a', log[..|log| - 1]);
    }
  }

  lemma AppendRecord(a: Attempts, log: seq<Event>, r: Event)
    requires !ToSynchronize(r)
    ensures Delivered(a, log + [r]) == Delivered(a, log) && Owed(a, log + [r]) == Owed(a, log)
    ensures ToPersist(log + [r]) == ToPersist(log) + SyncWeight(r)
  {
    assert (log + [r])[..|log|] == log;
  }

  /**
   * Recording a success delivers the event, behind everything delivered before; recording a failure
   * delivers nothing.
   */
  lemma RecordDelivers(max: nat, a: Attempts, log: seq<Event>, a': Attempts, log': seq<Event>, e: Event, error: bool)
    requires Sound(max, a, log) && Ready(max, a, log, e) && Recorded(a, log, a', log', e, error)
    ensures Delivered(a', log') == Delivered(a, log) + if error then [] else [e]
    ensures ToPersist(log') == Owed(a', log')
  {
    hide Delivered, Owed, ToPersist, Identified;
    var k :| 0 <= k < |log| && log[k] == e;
    AppendRecord(a', log, log'[|log|]);
    if error {
      SameDone(a, a', log);
    } else {
      forall i | k < i < |log| && ToSynchronize(log[i]) ensures !Done(a, log[i].id) {
        assert Count(a, log[i].id) == 0;
      }
      DeliverNext(a, a', log, k);
    }
  }

  lemma RecordKeepsOrder(max: nat, a: Attempts, log: seq<Event>, a': Attempts, log': seq<Event>, e: Event, error: bool)
    requires Sound(max, a, log) && Ready(max, a, log, e) && Recorded(a, log, a', log', e, error)
    ensures InOrder(a', log') && Bounded(max, a', log') && HasRows(a', log')
  {
    hide Owed, ToPersist, Identified;
    assert forall i :: 0 <= i < |log| ==> log'[i] == log[i];
    forall i, j | 0 <= i < j < |log'| && ToSynchronize(log'[i]) && Count(a', log'[j].id) > 0
      ensures Done(a', log'[i].id)
    {
      assert j < |log|;
      if log[j].id == e.id {
        assert log[i].id < e.id;
      } else {
        assert Done(a, log[i].id);
      }
    }
  }

  lemma RecordIdentifies(max: nat, a: Attempts, log: seq<Event>, a': Attempts, log': seq<Event>, e: Event, error: bool)
    requires Sound(max, a, log) && Ready(max, a, log, e) && Recorded(a, log, a', log', e, error)
    ensures Identified(a', log')
  {
    hide Owed, ToPersist, InOrder, Bounded;
    assert forall i :: 0 <= i < |log| ==> log'[i] == log[i];
    forall i | 0 <= i < |log'| && log'[i].payload.Issued? && Done(a', log'[i].id)
      ensures exists k :: 0 <= k < |log'| && log'[k].payload.IssuancePersisted?
    {
      assert i < |log|;
      var k :| 0 <= k < |log| && log[k] == e;
      if i == k {
        assert log'[|log|].payload.IssuancePersisted?;
      } else {
        assert log[i].id != e.id;
        var p :| 0 <= p < |log| && log[p].payload.IssuancePersisted?;
        assert log'[p].payload.IssuancePersisted?;
      }
    }
  }

  lemma RecordIsSound(max: nat, a: Attempts, log: seq<Event>, a': Attempts, log': seq<Event>, e: Event, error: bool)
    requires Sound(max, a, log) && Ready(max, a, log, e) && Recorded(a, log, a', log', e, error)
    ensures Sound(max, a', log')
  {
    hide Owed, ToPersist, InOrder, Bounded, Identified, HasRows;
    RecordDelivers(max, a, log, a', log', e, error);
    RecordKeepsOrder(max, a, log, a', log', e, error);
    RecordIdentifies(max, a, log, a', log', e, error);
  }
}
