/**
 * What finally becomes of certificates: of those that count as failed, and of the others when the
 * blockchain accepts everything.
 */
module SyncOutcome {
  import opened CertificateEvents
  import opened CertificateAggregate
  import opened CertificateStore
  import opened CertificateStoreFacts
  import opened SyncProtocol
  import opened SyncLog
  import opened SyncLine
  import opened SyncStore
  import opened SyncHistory
  import opened SyncBlock
  import opened SyncQuiet
  import opened SyncRun

  // ----- a failed certificate stays failed

  /** A certificate has failed exactly when a row of its own log has reached the limit. */
  lemma FailedByLog(env: Env, s: Store, id: CertId)
    requires AllSound(env, s)
    ensures FailedCertificate(s, env.max, id) <==>
            exists k :: 0 <= k < |LogOf(s.events, id)| && LogOf(s.events, id)[k].id in s.attempts
                        && s.attempts[LogOf(s.events, id)[k].id].count >= env.max
  {
    hide LogOf, Sound, ModelsAgree, HasAttempts;
    var log := LogOf(s.events, id);
    StoredLog(env.clock, s, id);
    if FailedCertificate(s, env.max, id) {
      var i :| 0 <= i < |s.events| && s.events[i].certificateId == id
               && s.events[i].id in s.attempts && s.attempts[s.events[i].id].count >= env.max;
      assert StoredAt(s.events, s.events[i]);
      var k :| 0 <= k < |log| && log[k] == s.events[i];
    }
    if k :| 0 <= k < |log| && log[k].id in s.attempts && s.attempts[log[k].id].count >= env.max {
      assert log[k] in log;
      assert s.events[log[k].id - 1] == log[k];
    }
  }

  lemma GrowthKeepsFailure(env: Env, s: Store, s': Store, id: CertId)
    requires AllSound(env, s) && AllSound(env, s') && FailedCertificate(s, env.max, id)
    requires Grew(s.attempts, LogOf(s.events, id), s'.attempts, LogOf(s'.events, id))
    ensures FailedCertificate(s', env.max, id)
  {
    hide LogOf, FailedCertificate, AllSound;
    FailedByLog(env, s, id);
    FailedByLog(env, s', id);
    var log, log' := LogOf(s.events, id), LogOf(s'.events, id);
    var k :| 0 <= k < |log| && log[k].id in s.attempts && s.attempts[log[k].id].count >= env.max;
    assert log'[k] == log[k];
  }

  /** No event of a failed certificate is selected. */
  lemma FailedIsNotSelected(env: Env, s: Store, limit: nat, id: CertId)
    requires AllSound(env, s) && FailedCertificate(s, env.max, id)
    ensures LogOf(Select(s, env.max, limit), id) == []
  {
    hide LogOf, Select, FailedCertificate, Sound;
    var selected := Select(s, env.max, limit);
    SelectionFacts(env.clock, s, env.max, limit);
    forall i | 0 <= i < |selected| ensures selected[i].certificateId != id {
      assert selected[i] in selected;
    }
    LogOfEmpty(selected, id);
  }

  /** Whatever is done next, the events of a failed certificate keep their rows, and new ones are not attempted. */
  lemma StepLeavesFailed(env: Env, w: World, action: Action, id: CertId)
    requires Proper(env) && Inv(env, w) && FailedCertificate(w.store, env.max, id)
    ensures var w' := Step(env, w, action);
            && Inv(env, w') && FailedCertificate(w'.store, env.max, id)
            && Grew(w.store.attempts, LogOf(w.store.events, id), w'.store.attempts, LogOf(w'.store.events, id))
  {
    hide LogOf, Pass, Serve, Select, FailedCertificate, Grew, Sound, Consistent, ChainAgrees, HistoryFits, Advanced,
         Settled;
    match action
    case Ask(request) =>
      ServeKeepsInv(env, w, request);
      ServeGrows(env.clock, w.store, request);
      GrowthKeepsFailure(env, w.store, Serve(env.clock, w.store, request), id);
    case Run(limit) =>
      PassOutcome(env, w, limit);
      FailedIsNotSelected(env, w.store, limit, id);
      GrowthKeepsFailure(env, w.store, Pass(env, w, limit).store, id);
  }

  /**
   * Failed for good: once an event of a certificate has reached the limit, whether its last attempt failed
   * or succeeded, no event of that certificate is attempted in any continuation of the run, and the
   * blockchain accepts nothing more of it.
   */
  lemma {:induction false} FailedForGood(env: Env, actions: seq<Action>, more: seq<Action>, id: CertId)
    requires Proper(env) && FailedCertificate(After(env, actions).store, env.max, id)
    ensures var w, w' := After(env, actions), After(env, actions + more);
            && FailedCertificate(w'.store, env.max, id)
            && Grew(w.store.attempts, LogOf(w.store.events, id), w'.store.attempts, LogOf(w'.store.events, id))
            && LogOf(w'.chain.accepted, id) == LogOf(w.chain.accepted, id)
  {
    hide LogOf, Step, FailedCertificate, Grew, AllSound, Delivered;
    var w := After(env, actions);
    EveryRun(env, actions);
    if more == [] {
      assert actions + more == actions;
      LogHasOnlyGrown(env, w.store, id);
    } else {
      var n := |more| - 1;
      FailedForGood(env, actions, more[..n], id);
      assert (actions + more)[..|actions| + n] == actions + more[..n];
      var before := After(env, actions + more[..n]);
      EveryRun(env, actions + more[..n]);
      StepLeavesFailed(env, before, more[n], id);
      var w' := Step(env, before, more[n]);
      assert w' == After(env, actions + more);
      GrewTransitive(w.store.attempts, LogOf(w.store.events, id), before.store.attempts, LogOf(before.store.events, id),
                     w'.store.attempts, LogOf(w'.store.events, id));
      GrowthDelivers(w.store.attempts, LogOf(w.store.events, id), w'.store.attempts, LogOf(w'.store.events, id));
    }
  }

  lemma LogHasOnlyGrown(env: Env, s: Store, id: CertId)
    requires AllSound(env, s)
    ensures Grew(s.attempts, LogOf(s.events, id), s.attempts, LogOf(s.events, id))
  {
    hide LogOf;
    assert Sound(env.max, s.attempts, LogOf(s.events, id));
  }

  /** A failed certificate with an event that is not accepted never becomes synchronised. */
  lemma NeverSynchronised(env: Env, actions: seq<Action>, more: seq<Action>, id: CertId)
    requires Proper(env) && FailedCertificate(After(env, actions).store, env.max, id)
    requires !InFull(After(env, actions), id)
    ensures var s := After(env, actions + more).store; id in s.models && !s.models[id].isSynced
  {
    hide After, LogOf, FailedCertificate, Delivered, Owed, Outgoing, Sound, Consistent;
    var w, w' := After(env, actions), After(env, actions + more);
    var log, log' := LogOf(w.store.events, id), LogOf(w'.store.events, id);
    EveryRun(env, actions);
    EveryRun(env, actions + more);
    FailedForGood(env, actions, more, id);
    DeliveredAndOwed(w.store.attempts, log);
    DeliveredAndOwed(w'.store.attempts, log');
    GrowthDelivers(w.store.attempts, log, w'.store.attempts, log');
    ReadModelsAgree(env, actions + more, id);
    OwedLogIsNotEmpty(w'.store.attempts, log');
    SyncFlagIsExact(env, actions + more, id);
  }

  lemma OwedLogIsNotEmpty(a: Attempts, log: seq<Event>)
    ensures Owed(a, log) > 0 ==> log != []
    ensures Owed(a, log) > 0 ==> Delivered(a, log) != Outgoing(log)
  {
    DeliveredAndOwed(a, log);
  }

  // ----- a blockchain that accepts everything

  /** From the given call on the blockchain accepts everything, and nothing is requested. */
  ghost predicate Serene(env: Env, calls: nat) {
    Accepting(env, calls) && Quiet(env, calls)
  }

  lemma SereneLater(env: Env, calls: nat, later: nat)
    requires Serene(env, calls) && calls <= later
    ensures Serene(env, later)
  {
  }

  /** A row that has moved while everything was accepted has no error. */
  lemma MovedRow(s: Store, s': Store, id: nat)
    requires Advanced(s, s', true)
    ensures Count(s'.attempts, id) > Count(s.attempts, id) ==> Done(s'.attempts, id)
    ensures Done(s.attempts, id) ==> Done(s'.attempts, id)
  {
    assert RowMoved(RowOf(s.attempts, id), RowOf(s'.attempts, id), true);
  }

  /** When the blockchain accepts everything, a pass attempts every event that it selects once, and delivers it. */
  lemma AcceptingPassDelivers(env: Env, w: World, limit: nat)
    requires Proper(env) && Inv(env, w) && Accepting(env, w.chain.calls)
    ensures var s, s' := w.store, Pass(env, w, limit).store;
            forall e :: e in Select(s, env.max, limit) ==>
              Done(s'.attempts, e.id) && Count(s'.attempts, e.id) == Count(s.attempts, e.id) + 1
  {
    hide LogOf, Pass, Select, Advanced, AllSound, ChainAgrees, HistoryFits, Grew, Done, Count;
    var w' := Pass(env, w, limit);
    PassOutcome(env, w, limit);
    forall e | e in Select(w.store, env.max, limit)
      ensures Done(w'.store.attempts, e.id)
      ensures Count(w'.store.attempts, e.id) == Count(w.store.attempts, e.id) + 1
    {
      var log := LogOf(w'.store.events, e.certificateId);
      var k :| SettledBy(w.store.attempts, w'.store.attempts, log, e, k);
      MovedRow(w.store, w'.store, log[k].id);
    }
  }

  lemma UnlimitedSelection(env: Env, s: Store, e: Event)
    requires AllSound(env, s) && StoredAt(s.events, e) && Selectable(s, env.max, e)
    ensures e in Select(s, env.max, 0)
  {
    hide Eligible, Selectable, Sound;
    EligibleMembers(s, env.max, s.events);
    EligibleIsSorted(env.clock, s, env.max);
    SortOfSorted(Eligible(s, env.max, s.events));
  }

  lemma {:induction false} OutgoingOfLog(events: seq<Event>, id: CertId)
    ensures Outgoing(LogOf(events, id)) == LogOf(Outgoing(events), id)
  {
    if events != [] {
      var n := |events| - 1;
      var before, e := events[..n], events[n];
      OutgoingOfLog(before, id);
      LogOfAppend(Outgoing(before), e, id);
      OutgoingAppend(LogOf(before, id), e);
      assert Outgoing(before) + [] == Outgoing(before);
      assert LogOf(before, id) + [] == LogOf(before, id);
      assert Outgoing(LogOf(before, id)) + [] == Outgoing(LogOf(before, id));
    }
  }

  lemma OutgoingAppend(log: seq<Event>, e: Event)
    ensures Outgoing(log + [e]) == Outgoing(log) + if ToSynchronize(e) then [e] else []
  {
    assert (log + [e])[..|log|] == log;
  }

  /** A member of a log that goes out has always been there if the same events went out before. */
  lemma OutgoingBefore(env: Env, s: Store, s': Store, id: CertId, e: Event)
    requires AllSound(env, s) && AllSound(env, s') && Outgoing(s.events) == Outgoing(s'.events)
    requires e in LogOf(s'.events, id) && ToSynchronize(e)
    ensures e in LogOf(s.events, id) && e.certificateId == id
  {
    hide LogOf, Outgoing;
    OutgoingOfLog(s.events, id);
    OutgoingOfLog(s'.events, id);
    StoredLog(env.clock, s, id);
    StoredLog(env.clock, s', id);
    OutgoingFacts(LogOf(s.events, id));
    OutgoingFacts(LogOf(s'.events, id));
  }

  // ----- which certificates a pass leaves accepted in full, and which failed

  /** Every event of the certificate that is not done yet is selected. */
  ghost predicate WithinReach(s: Store, max: nat, limit: nat, id: CertId) {
    forall e :: e in LogOf(s.events, id) && ToSynchronize(e) && !Done(s.attempts, e.id) ==> e in Select(s, max, limit)
  }

  /** No event of the certificate that is not done yet is at its last attempt. */
  ghost predicate HasSlack(s: Store, max: nat, id: CertId) {
    forall e :: e in LogOf(s.events, id) && ToSynchronize(e) && !Done(s.attempts, e.id) ==>
      Count(s.attempts, e.id) + 1 < max
  }

  lemma InFullExactly(env: Env, w: World, id: CertId)
    requires Inv(env, w)
    ensures InFull(w, id) <==>
            forall e :: e in LogOf(w.store.events, id) && ToSynchronize(e) ==> Done(w.store.attempts, e.id)
  {
    hide LogOf, Delivered, Outgoing, Owed, Done, AllSound;
    var a, log := w.store.attempts, LogOf(w.store.events, id);
    DeliveredAndOwed(a, log);
    if Owed(a, log) == 0 {
      forall e | e in log && ToSynchronize(e) ensures Done(a, e.id) {
        var i :| 0 <= i < |log| && log[i] == e;
      }
    } else {
      var i :| 0 <= i < |log| && ToSynchronize(log[i]) && !Done(a, log[i].id);
      assert log[i] in log;
    }
  }

  lemma SelectedIsStored(env: Env, s: Store, limit: nat, e: Event)
    requires AllSound(env, s) && e in Select(s, env.max, limit)
    ensures StoredAt(s.events, e)
  {
    hide LogOf, Select, Selectable, Sound;
    SelectionFacts(env.clock, s, env.max, limit);
  }

  lemma SelectedIdIsStored(env: Env, s: Store, limit: nat, id: nat)
    requires AllSound(env, s) && HasId(Select(s, env.max, limit), id)
    ensures 1 <= id <= |s.events| && s.events[id - 1] in Select(s, env.max, limit)
  {
    hide AllSound, Select;
    var selected := Select(s, env.max, limit);
    var i :| 0 <= i < |selected| && selected[i].id == id;
    SelectedIsStored(env, s, limit, selected[i]);
  }

  /** What a pass leaves of an event that it did not select. */
  lemma UnselectedStays(env: Env, w: World, limit: nat, e: Event)
    requires Proper(env) && Inv(env, w) && StoredAt(w.store.events, e) && e !in Select(w.store, env.max, limit)
    ensures var s, s' := w.store, Pass(env, w, limit).store;
            && Count(s'.attempts, e.id) == Count(s.attempts, e.id)
            && (Done(s'.attempts, e.id) <==> Done(s.attempts, e.id))
  {
    hide LogOf, Pass, Select, AllSound, Moved, Settled, ChainAgrees, HistoryFits, HasId;
    PassOutcome(env, w, limit);
    assert !HasId(Select(w.store, env.max, limit), e.id) by {
      if HasId(Select(w.store, env.max, limit), e.id) { SelectedIdIsStored(env, w.store, limit, e.id); }
    }
    assert RowOf(Pass(env, w, limit).store.attempts, e.id) == RowOf(w.store.attempts, e.id);
  }

  /** In a quiet pass over an accepting blockchain, the undone events are those that it leaves out. */
  lemma UndoneAfterPass(env: Env, w: World, limit: nat, id: CertId, e: Event)
    requires Proper(env) && Inv(env, w) && Serene(env, w.chain.calls) && ToSynchronize(e)
    ensures var s, s' := w.store, Pass(env, w, limit).store;
            && (e in LogOf(s'.events, id) <==> e in LogOf(s.events, id))
            && (e in LogOf(s.events, id) ==>
                  (Done(s'.attempts, e.id) <==> Done(s.attempts, e.id) || e in Select(s, env.max, limit)))
            && (e in LogOf(s.events, id) && !Done(s'.attempts, e.id) ==>
                  Count(s'.attempts, e.id) == Count(s.attempts, e.id))
  {
    hide LogOf, Pass, Select, Advanced, Sound, Consistent, Grew, Done, Outgoing, ChainAgrees, HistoryFits, Quiet,
         Accepting, Proper, Count, Settled;
    var s, s' := w.store, Pass(env, w, limit).store;
    PassOutcome(env, w, limit);
    PassIsCalm(env, w, limit);
    if e in LogOf(s'.events, id) { OutgoingBefore(env, s, s', id, e); }
    if e in LogOf(s.events, id) {
      OutgoingBefore(env, s', s, id, e);
      AcceptingPassDelivers(env, w, limit);
      MovedRow(s, s', e.id);
      if e !in Select(s, env.max, limit) {
        StoredIn(env, s, id, e);
        UnselectedStays(env, w, limit, e);
      }
    }
  }

  lemma StoredIn(env: Env, s: Store, id: CertId, e: Event)
    requires AllSound(env, s) && e in LogOf(s.events, id)
    ensures StoredAt(s.events, e) && e.certificateId == id
  {
    hide LogOf, Sound;
    StoredLog(env.clock, s, id);
  }

  /**
   * When the blockchain accepts everything and nothing is requested, a pass leaves a certificate accepted in
   * full exactly when it selects all of its events that are not done yet.
   */
  lemma PassExactly(env: Env, w: World, limit: nat, id: CertId)
    requires Proper(env) && Inv(env, w) && Serene(env, w.chain.calls)
    ensures InFull(Pass(env, w, limit), id) <==> WithinReach(w.store, env.max, limit, id)
  {
    hide LogOf, Pass, Select, AllSound, Done, Outgoing, ChainAgrees, HistoryFits, Quiet, Accepting, Proper, InFull,
         Moved, Spared, Settled;
    var w' := Pass(env, w, limit);
    PassOutcome(env, w, limit);
    InFullExactly(env, w', id);
    forall e | ToSynchronize(e)
      ensures e in LogOf(w'.store.events, id) <==> e in LogOf(w.store.events, id)
      ensures e in LogOf(w.store.events, id) ==>
                (Done(w'.store.attempts, e.id) <==>
                 Done(w.store.attempts, e.id) || e in Select(w.store, env.max, limit))
    {
      UndoneAfterPass(env, w, limit, id, e);
    }
  }

  /**
   * When the blockchain accepts everything, a pass leaves a certificate failed exactly when it had failed
   * before or has an event selected for its last attempt, which succeeds.
   */
  lemma FailedExactly(env: Env, w: World, limit: nat, id: CertId)
    requires Proper(env) && Inv(env, w) && Accepting(env, w.chain.calls)
    ensures FailedCertificate(Pass(env, w, limit).store, env.max, id) <==>
            FailedCertificate(w.store, env.max, id)
            || exists e :: e in Select(w.store, env.max, limit) && e.certificateId == id
                           && Count(w.store.attempts, e.id) + 1 >= env.max
  {
    hide LogOf, Pass, Select, Sound, Consistent, Settled, ChainAgrees, HistoryFits, Done, Grew, Count,
         FailedCertificate;
    var s, s', selected := w.store, Pass(env, w, limit).store, Select(w.store, env.max, limit);
    PassOutcome(env, w, limit);
    AcceptingPassDelivers(env, w, limit);
    FailedByCount(env, s, id);
    FailedByCount(env, s', id);
    CountsRise(s, s', Accepting(env, w.chain.calls));
    assert s.events <= s'.events;
    if FailedCertificate(s', env.max, id) {
      var e :| StoredAt(s'.events, e) && e.certificateId == id && Count(s'.attempts, e.id) >= env.max;
      if e !in selected {
        UnattemptedIsStored(env, w, limit, e);
      }
    }
    if e :| e in selected && e.certificateId == id && Count(s.attempts, e.id) + 1 >= env.max {
      SelectedIsStored(env, s, limit, e);
      assert StoredAt(s'.events, e);
    }
    if FailedCertificate(s, env.max, id) {
      var e :| StoredAt(s.events, e) && e.certificateId == id && Count(s.attempts, e.id) >= env.max;
      assert StoredAt(s'.events, e);
    }
  }

  /** An event with attempts that a pass did not select had them before. */
  lemma UnattemptedIsStored(env: Env, w: World, limit: nat, e: Event)
    requires Proper(env) && Inv(env, w) && e !in Select(w.store, env.max, limit)
    requires StoredAt(Pass(env, w, limit).store.events, e) && Count(Pass(env, w, limit).store.attempts, e.id) > 0
    ensures StoredAt(w.store.events, e)
    ensures Count(Pass(env, w, limit).store.attempts, e.id) == Count(w.store.attempts, e.id)
  {
    hide LogOf, Pass, Select, Sound, Moved, Settled, ChainAgrees, HistoryFits, ModelsAgree, HasId;
    var s, s', selected := w.store, Pass(env, w, limit).store, Select(w.store, env.max, limit);
    PassOutcome(env, w, limit);
    MovedAdvances(PassContext(env, w, limit), s, s');
    assert e.id <= |s.events| by {
      if HasId(selected, e.id) {
        SelectedIdIsStored(env, s, limit, e.id);
      } else {
        assert RowOf(s'.attempts, e.id) == RowOf(s.attempts, e.id);
      }
    }
    UnselectedStays(env, w, limit, e);
  }

  lemma FailedByCount(env: Env, s: Store, id: CertId)
    requires Proper(env) && AllSound(env, s)
    ensures FailedCertificate(s, env.max, id) <==>
            exists e :: StoredAt(s.events, e) && e.certificateId == id && Count(s.attempts, e.id) >= env.max
  {
    hide LogOf, Sound, ModelsAgree, HasAttempts;
    if FailedCertificate(s, env.max, id) {
      var i :| 0 <= i < |s.events| && s.events[i].certificateId == id
               && s.events[i].id in s.attempts && s.attempts[s.events[i].id].count >= env.max;
      assert StoredAt(s.events, s.events[i]);
    }
    if e :| StoredAt(s.events, e) && e.certificateId == id && Count(s.attempts, e.id) >= env.max {
      assert s.events[e.id - 1] == e;
    }
  }

  /** Without a limit: a certificate that had not failed, or was accepted in full already, is accepted in full. */
  lemma SynchronisedExactlyWhen(env: Env, w: World, id: CertId)
    requires Proper(env) && Inv(env, w) && Serene(env, w.chain.calls)
    ensures InFull(Pass(env, w, 0), id) <==> !FailedCertificate(w.store, env.max, id) || InFull(w, id)
  {
    hide LogOf, Pass, Select, Sound, Done, Outgoing, ChainAgrees, HistoryFits, Quiet, Accepting, InFull,
         FailedCertificate, Selectable, Consistent;
    PassExactly(env, w, 0, id);
    InFullExactly(env, w, id);
    if FailedCertificate(w.store, env.max, id) {
      forall e | e in LogOf(w.store.events, id) ensures e !in Select(w.store, env.max, 0) {
        StoredIn(env, w.store, id, e);
        FailedIsOut(env, w.store, 0, e);
      }
    } else {
      forall e | e in LogOf(w.store.events, id) && ToSynchronize(e) && !Done(w.store.attempts, e.id)
        ensures e in Select(w.store, env.max, 0)
      {
        StoredIn(env, w.store, id, e);
        UndoneIsSelectable(env, w.store, e);
        UnlimitedSelection(env, w.store, e);
      }
    }
  }

  lemma FailedIsOut(env: Env, s: Store, limit: nat, e: Event)
    requires AllSound(env, s) && FailedCertificate(s, env.max, e.certificateId)
    ensures e !in Select(s, env.max, limit)
  {
    hide LogOf, Select, FailedCertificate, Sound;
    SelectionFacts(env.clock, s, env.max, limit);
  }

  // ----- which certificates a job leaves accepted in full

  /** The world before the first of some passes that selects an event of the certificate. */
  ghost function FirstTurn(env: Env, w: World, passes: nat, id: CertId): World
    requires Proper(env)
    decreases passes
  {
    var selected := Select(w.store, env.max, PASS_LIMIT);
    if passes == 0 || selected == [] || LogOf(selected, id) != [] then w
    else FirstTurn(env, Pass(env, w, PASS_LIMIT), passes - 1, id)
  }

  /** A pass that selects no event of a certificate leaves it as it is. */
  lemma NoTurn(env: Env, w: World, limit: nat, id: CertId)
    requires Proper(env) && Inv(env, w) && Quiet(env, w.chain.calls)
    requires LogOf(Select(w.store, env.max, limit), id) == []
    ensures var w' := Pass(env, w, limit);
            && LogOf(w'.store.events, id) == LogOf(w.store.events, id)
            && Agree(w.store.attempts, w'.store.attempts, LogOf(w.store.events, id))
            && (InFull(w', id) <==> InFull(w, id))
  {
    hide LogOf, Pass, Select, Advanced, Sound, Consistent, Delivered, Owed, Outgoing, Quiet, Accepting, Proper, Settled,
         Spared;
    var w' := Pass(env, w, limit);
    var a, a', log, log' := w.store.attempts, w'.store.attempts, LogOf(w.store.events, id), LogOf(w'.store.events, id);
    PassOutcome(env, w, limit);
    PassIsCalm(env, w, limit);
    OutgoingOfLog(w.store.events, id);
    OutgoingOfLog(w'.store.events, id);
    GrowthDelivers(a, log, a', log');
    DeliveredAndOwed(a, log);
    DeliveredAndOwed(a', log');
  }

  lemma NoTurnKeepsStanding(env: Env, w: World, limit: nat, id: CertId)
    requires Proper(env) && Inv(env, w) && Quiet(env, w.chain.calls)
    requires LogOf(Select(w.store, env.max, limit), id) == []
    ensures var s, s' := w.store, Pass(env, w, limit).store;
            && (FailedCertificate(s', env.max, id) <==> FailedCertificate(s, env.max, id))
            && (HasSlack(s', env.max, id) <==> HasSlack(s, env.max, id))
  {
    hide LogOf, Pass, Select, AllSound, Quiet, Accepting, Proper, Settled, Spared, Moved, FailedCertificate, InFull;
    var s, s' := w.store, Pass(env, w, limit).store;
    PassOutcome(env, w, limit);
    NoTurn(env, w, limit, id);
    FailedByLog(env, s, id);
    FailedByLog(env, s', id);
    var log := LogOf(s.events, id);
    forall e | e in log ensures Count(s'.attempts, e.id) == Count(s.attempts, e.id)
                                && (Done(s'.attempts, e.id) <==> Done(s.attempts, e.id)) {
      var i :| 0 <= i < |log| && log[i] == e;
    }
  }

  /** A certificate that has slack keeps it, and does not fail. */
  lemma SlackStays(env: Env, w: World, limit: nat, id: CertId)
    requires Proper(env) && Inv(env, w) && Serene(env, w.chain.calls)
    requires !FailedCertificate(w.store, env.max, id) && HasSlack(w.store, env.max, id)
    ensures var s' := Pass(env, w, limit).store; !FailedCertificate(s', env.max, id) && HasSlack(s', env.max, id)
  {
    hide LogOf, Pass, Select, Sound, Consistent, Quiet, Accepting, FailedCertificate, Done, Count, ChainAgrees,
         HistoryFits;
    var s, s' := w.store, Pass(env, w, limit).store;
    FailedExactly(env, w, limit, id);
    forall e | e in Select(s, env.max, limit) && e.certificateId == id ensures Count(s.attempts, e.id) + 1 < env.max {
      SelectedIsUndone(env, s, limit, e);
    }
    forall e | e in LogOf(s'.events, id) && ToSynchronize(e) && !Done(s'.attempts, e.id)
      ensures Count(s'.attempts, e.id) + 1 < env.max
    {
      UndoneAfterPass(env, w, limit, id, e);
    }
  }

  lemma SelectedIsUndone(env: Env, s: Store, limit: nat, e: Event)
    requires Proper(env) && AllSound(env, s) && e in Select(s, env.max, limit)
    ensures e in LogOf(s.events, e.certificateId) && ToSynchronize(e) && !Done(s.attempts, e.id)
  {
    hide LogOf, Select, Selectable, Sound;
    SelectionFacts(env.clock, s, env.max, limit);
    SelectableIsUndone(env, s, e);
  }

  /** A turn that cuts a certificate's line at its last attempt is its last one. */
  lemma CutLine(env: Env, w: World, limit: nat, id: CertId)
    requires Proper(env) && Inv(env, w) && Serene(env, w.chain.calls)
    requires LogOf(Select(w.store, env.max, limit), id) != []
    requires !HasSlack(w.store, env.max, id) && !WithinReach(w.store, env.max, limit, id)
    ensures var w' := Pass(env, w, limit); FailedCertificate(w'.store, env.max, id) && !InFull(w', id)
  {
    hide LogOf, Pass, Select, Sound, Consistent, Quiet, Accepting, FailedCertificate, ChainAgrees, HistoryFits, InFull;
    var s, selected := w.store, Select(w.store, env.max, limit);
    var line := LogOf(selected, id);
    PassExactly(env, w, limit, id);
    FailedExactly(env, w, limit, id);
    SelectedMember(env, s, limit, id, line[0]);
    var e :| e in LogOf(s.events, id) && ToSynchronize(e) && !Done(s.attempts, e.id)
             && Count(s.attempts, e.id) + 1 >= env.max;
    if e !in selected {
      LaterIsUnattempted(env, s, limit, id, line[0], e);
    } else {
      StoredIn(env, s, id, e);
    }
  }

  /** An undone event that a selection leaves out, although it takes another one, comes later and is unattempted. */
  lemma LaterIsUnattempted(env: Env, s: Store, limit: nat, id: CertId, first: Event, e: Event)
    requires Proper(env) && AllSound(env, s) && first in LogOf(Select(s, env.max, limit), id)
    requires e in LogOf(s.events, id) && ToSynchronize(e) && !Done(s.attempts, e.id)
    requires e !in Select(s, env.max, limit)
    ensures Count(s.attempts, e.id) == 0
  {
    hide LogOf, Select, HasRows, Identified, Bounded, ToPersist, Owed, Consistent;
    var log := LogOf(s.events, id);
    SelectedMember(env, s, limit, id, first);
    StoredIn(env, s, id, e);
    if e.id < first.id {
      EarlierIsSelected(env, s, limit, first, e);
      SelectedMember(env, s, limit, id, e);
    }
    assert Sound(env.max, s.attempts, log);
    var i :| 0 <= i < |log| && log[i] == first;
    var j :| 0 <= j < |log| && log[j] == e;
    assert i < j;
  }

  /** What a certificate's first turn decides. */
  lemma TurnDecides(env: Env, w: World, limit: nat, id: CertId)
    requires Proper(env) && Inv(env, w) && Serene(env, w.chain.calls)
    requires LogOf(Select(w.store, env.max, limit), id) != []
    ensures !FailedCertificate(w.store, env.max, id) && !InFull(w, id)
    ensures var w' := Pass(env, w, limit);
            if WithinReach(w.store, env.max, limit, id) then InFull(w', id)
            else if HasSlack(w.store, env.max, id) then
              !FailedCertificate(w'.store, env.max, id) && HasSlack(w'.store, env.max, id)
            else FailedCertificate(w'.store, env.max, id) && !InFull(w', id)
  {
    hide LogOf, Pass, Select, AllSound, ChainAgrees, HistoryFits, Quiet, Accepting, FailedCertificate, InFull,
         WithinReach, HasSlack, Done, Proper;
    var line := LogOf(Select(w.store, env.max, limit), id);
    SelectedMember(env, w.store, limit, id, line[0]);
    InFullExactly(env, w, id);
    if FailedCertificate(w.store, env.max, id) {
      FailedIsNotSelected(env, w.store, limit, id);
    }
    if WithinReach(w.store, env.max, limit, id) {
      PassExactly(env, w, limit, id);
    } else if HasSlack(w.store, env.max, id) {
      SlackStays(env, w, limit, id);
    } else {
      CutLine(env, w, limit, id);
    }
  }

  /**
   * When the blockchain accepts everything and nothing is requested, a job with as many passes as attempts are
   * left leaves a certificate accepted in full exactly when it was so before, or had not failed and either
   * has no event at its last attempt or is not cut by the limit of the pass in which its first turn comes.
   */
  lemma {:induction false} TaskDeliversExactly(env: Env, w: World, passes: nat, id: CertId)
    requires Proper(env) && Inv(env, w) && Serene(env, w.chain.calls)
    requires Remaining(env, w.store) <= passes
    ensures InFull(Task(env, w, passes), id) <==>
            InFull(w, id)
            || (!FailedCertificate(w.store, env.max, id)
                && (HasSlack(w.store, env.max, id)
                    || WithinReach(FirstTurn(env, w, passes, id).store, env.max, PASS_LIMIT, id)))
    decreases passes
  {
    hide Inv, Select, Pass, Remaining, Proper, Quiet, Accepting, LogOf, InFull, FailedCertificate, HasSlack,
         WithinReach;
    GoesOn(env, w);
    if Select(w.store, env.max, PASS_LIMIT) == [] {
      NothingToSelect(env, w, PASS_LIMIT);
    } else {
      var w' := Pass(env, w, PASS_LIMIT);
      RemainingFalls(env, w, PASS_LIMIT);
      PassOutcome(env, w, PASS_LIMIT);
      PassIsCalm(env, w, PASS_LIMIT);
      SereneLater(env, w.chain.calls, w'.chain.calls);
      TaskDeliversExactly(env, w', passes - 1, id);
      if LogOf(Select(w.store, env.max, PASS_LIMIT), id) == [] {
        NoTurn(env, w, PASS_LIMIT, id);
        NoTurnKeepsStanding(env, w, PASS_LIMIT, id);
      } else {
        TurnDecides(env, w, PASS_LIMIT, id);
      }
    }
  }

  /** The same for job after job of fifty passes. */
  lemma JobsDeliverExactly(env: Env, w: World, jobs: nat, id: CertId)
    requires Proper(env) && Inv(env, w) && Serene(env, w.chain.calls)
    requires Remaining(env, w.store) <= PASSES_PER_TASK * jobs
    ensures InFull(Jobs(env, w, jobs), id) <==>
            InFull(w, id)
            || (!FailedCertificate(w.store, env.max, id)
                && (HasSlack(w.store, env.max, id)
                    || WithinReach(FirstTurn(env, w, PASSES_PER_TASK * jobs, id).store, env.max, PASS_LIMIT, id)))
  {
    hide Inv, Remaining, Proper, InFull, FailedCertificate, HasSlack, WithinReach, Serene, Task, FirstTurn;
    JobsAreOneTask(env, w, jobs);
    TaskDeliversExactly(env, w, PASSES_PER_TASK * jobs, id);
  }

  /** A certificate has slack exactly when the first of its events that is not done has more than one attempt left. */
  lemma SlackOfFirst(env: Env, s: Store, id: CertId, e: Event)
    requires AllSound(env, s) && Ready(env.max, s.attempts, LogOf(s.events, id), e)
    ensures HasSlack(s, env.max, id) <==> Count(s.attempts, e.id) + 1 < env.max
  {
    hide LogOf, HasRows, Identified, Bounded, ToPersist, Owed, Consistent;
    var a, log := s.attempts, LogOf(s.events, id);
    assert Sound(env.max, a, log);
    var i :| 0 <= i < |log| && log[i] == e;
    forall other | other in log && ToSynchronize(other) && !Done(a, other.id) && other != e
      ensures Count(a, other.id) == 0
    {
      var j :| 0 <= j < |log| && log[j] == other;
      assert i <= j;
    }
  }
}
