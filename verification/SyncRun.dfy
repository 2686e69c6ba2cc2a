/** Every run of requests and synchronisation passes, whatever the blockchain answers. */
module SyncRun {
  import opened Arithmetic
  import opened Wrappers
  import opened CertificateEvents
  import opened CertificateAggregate
  import opened CertificateStore
  import opened CertificateStoreFacts
  import opened BatchQueue
  import opened SyncProtocol
  import opened SyncLog
  import opened SyncLine
  import opened SyncStore
  import opened SyncHistory
  import opened SyncBlock
  import opened SyncPass
  import opened SyncQuiet

  /** What holds of every world that a run can reach. */
  ghost predicate Inv(env: Env, w: World) {
    !w.thrown && AllSound(env, w.store) && ChainAgrees(w) && HistoryFits(env, w)
  }

  // ----- selection

  lemma {:induction false} EligibleMembers(s: Store, max: nat, events: seq<Event>)
    requires Numbered(events)
    ensures Increasing(Eligible(s, max, events))
    ensures forall e :: e in Eligible(s, max, events) <==> StoredAt(events, e) && Selectable(s, max, e)
  {
    hide Selectable;
    if events != [] {
      var n := |events| - 1;
      EligibleMembers(s, max, events[..n]);
      forall i | 0 <= i < |Eligible(s, max, events[..n])| ensures Eligible(s, max, events[..n])[i].id < events[n].id {
        assert Eligible(s, max, events[..n])[i] in Eligible(s, max, events[..n]);
      }
      forall e ensures e in Eligible(s, max, events) <==> StoredAt(events, e) && Selectable(s, max, e) {
        assert StoredAt(events, e) <==> StoredAt(events[..n], e) || e == events[n];
      }
    }
  }

  lemma EligibleIsSorted(clock: Clock, s: Store, max: nat)
    requires NonDecreasing(clock) && LogInOrder(clock, s)
    ensures Sorted(Eligible(s, max, s.events))
  {
    hide Eligible, Selectable;
    EligibleMembers(s, max, s.events);
    var all := Eligible(s, max, s.events);
    forall i | 0 <= i < |all| ensures StoredAt(s.events, all[i]) {
      assert all[i] in all;
    }
  }

  /** The selection is the first part of the eligible events, in the order of the log. */
  lemma SelectionFacts(clock: Clock, s: Store, max: nat, limit: nat)
    requires NonDecreasing(clock) && LogInOrder(clock, s)
    ensures var selected := Select(s, max, limit);
            && selected <= Eligible(s, max, s.events)
            && Increasing(selected) && Sorted(selected)
            && (forall e :: e in selected ==> StoredAt(s.events, e) && Selectable(s, max, e))
            && (selected == [] <==> forall e :: StoredAt(s.events, e) ==> !Selectable(s, max, e))
  {
    hide Eligible, Selectable;
    var all := Eligible(s, max, s.events);
    EligibleMembers(s, max, s.events);
    EligibleIsSorted(clock, s, max);
    SortOfSorted(all);
    hide SortByTime;
    var selected := Select(s, max, limit);
    assert forall i :: 0 <= i < |selected| ==> selected[i] == all[i];
    assert selected == [] <==> all == [];
    if all != [] {
      assert all[0] in all;
    }
  }

  /** Nothing eligible with a smaller id than a selected event is left out. */
  lemma SelectionIsPrefix(clock: Clock, s: Store, max: nat, limit: nat, e: Event, earlier: Event)
    requires NonDecreasing(clock) && LogInOrder(clock, s)
    requires e in Select(s, max, limit) && earlier.id < e.id
    requires StoredAt(s.events, earlier) && Selectable(s, max, earlier)
    ensures earlier in Select(s, max, limit)
  {
    hide Eligible, Selectable, Select;
    var all, selected := Eligible(s, max, s.events), Select(s, max, limit);
    SelectionFacts(clock, s, max, limit);
    EligibleMembers(s, max, s.events);
    var i :| 0 <= i < |selected| && selected[i] == e;
    assert all[i] == e;
    var k :| 0 <= k < |all| && all[k] == earlier;
    assert k < i;
    assert selected[k] == all[k];
  }

  /** An eligible event is left out only if the limit is used up by eligible events before it. */
  lemma SelectionIsFull(clock: Clock, s: Store, max: nat, limit: nat, e: Event)
    requires NonDecreasing(clock) && LogInOrder(clock, s)
    requires StoredAt(s.events, e) && Selectable(s, max, e) && e !in Select(s, max, limit)
    ensures limit > 0 && |Select(s, max, limit)| == limit
    ensures forall i :: 0 <= i < limit ==> Select(s, max, limit)[i].id < e.id
  {
    hide Eligible, Selectable;
    var all := Eligible(s, max, s.events);
    EligibleMembers(s, max, s.events);
    EligibleIsSorted(clock, s, max);
    SortOfSorted(all);
    hide SortByTime;
    var k :| 0 <= k < |all| && all[k] == e;
    forall i | 0 <= i < |Select(s, max, limit)| ensures Select(s, max, limit)[i] != e {
      assert Select(s, max, limit)[i] in Select(s, max, limit);
    }
    assert forall i :: 0 <= i < |Select(s, max, limit)| ==> Select(s, max, limit)[i] == all[i];
  }

  /** An event that is not done, of a certificate that has not failed, is eligible. */
  lemma UndoneIsSelectable(env: Env, s: Store, e: Event)
    requires AllSound(env, s) && e in LogOf(s.events, e.certificateId) && ToSynchronize(e) && !Done(s.attempts, e.id)
    requires !FailedCertificate(s, env.max, e.certificateId)
    ensures StoredAt(s.events, e) && Selectable(s, env.max, e)
  {
    hide LogOf, InOrder, Identified, ToPersist, Owed;
    var log := LogOf(s.events, e.certificateId);
    assert Sound(env.max, s.attempts, log);
    StoredLog(env.clock, s, e.certificateId);
    var i :| 0 <= i < |log| && log[i] == e;
    assert s.events[e.id - 1].certificateId == e.certificateId;
  }

  lemma SelectableIsUndone(env: Env, s: Store, e: Event)
    requires 1 <= env.max && AllSound(env, s) && StoredAt(s.events, e) && Selectable(s, env.max, e)
    ensures ToSynchronize(e) && !Done(s.attempts, e.id) && Count(s.attempts, e.id) < env.max
    ensures e in LogOf(s.events, e.certificateId)
  {
    hide LogOf, Sound, FailedCertificate;
    StoredLog(env.clock, s, e.certificateId);
    assert HasAttempts(s);
  }

  lemma SelectedMember(env: Env, s: Store, limit: nat, id: CertId, e: Event)
    requires Proper(env) && AllSound(env, s) && e in LogOf(Select(s, env.max, limit), id)
    ensures e.certificateId == id && e in Select(s, env.max, limit) && e in LogOf(s.events, id)
    ensures ToSynchronize(e) && !Done(s.attempts, e.id) && Count(s.attempts, e.id) < env.max
  {
    hide LogOf, Sound, Select, Selectable;
    SelectionFacts(env.clock, s, env.max, limit);
    IncreasingLog(Select(s, env.max, limit), id);
    SelectableIsUndone(env, s, e);
  }

  lemma SelectionHasNoGaps(env: Env, s: Store, limit: nat, id: CertId)
    requires Proper(env) && AllSound(env, s)
    ensures NoGaps(s.attempts, LogOf(s.events, id), LogOf(Select(s, env.max, limit), id))
  {
    hide LogOf, AllSound, Select, Proper;
    var log, line := LogOf(s.events, id), LogOf(Select(s, env.max, limit), id);
    forall i, k | 0 <= i < |line| && 0 <= k < |log| && log[k].id < line[i].id
                  && ToSynchronize(log[k]) && !Done(s.attempts, log[k].id)
      ensures log[k] in line
    {
      SelectedMember(env, s, limit, id, line[i]);
      InItsOwnLog(env, s, id, log[k]);
      EarlierIsSelected(env, s, limit, line[i], log[k]);
    }
  }

  lemma InItsOwnLog(env: Env, s: Store, id: CertId, e: Event)
    requires AllSound(env, s) && e in LogOf(s.events, id)
    ensures e.certificateId == id
  {
    hide LogOf, Sound;
    StoredLog(env.clock, s, id);
  }

  /** The selected events of a certificate form a line. */
  lemma SelectionLinesUp(env: Env, s: Store, limit: nat, id: CertId)
    requires Proper(env) && AllSound(env, s)
    ensures InLine(env.max, s.attempts, s.attempts, LogOf(s.events, id), LogOf(Select(s, env.max, limit), id))
    ensures forall i :: 0 <= i < |LogOf(Select(s, env.max, limit), id)| ==>
              LogOf(Select(s, env.max, limit), id)[i] in LogOf(s.events, id)
  {
    hide LogOf, AllSound, Select, Proper, NoGaps, Done, Count;
    SelectionIncreases(env, s, limit);
    SelectionHasNoGaps(env, s, limit, id);
    IncreasingLog(Select(s, env.max, limit), id);
    var line := LogOf(Select(s, env.max, limit), id);
    forall i | 0 <= i < |line|
      ensures line[i] in LogOf(s.events, id) && ToSynchronize(line[i])
      ensures !Done(s.attempts, line[i].id) && Count(s.attempts, line[i].id) < env.max
    {
      SelectedMember(env, s, limit, id, line[i]);
    }
  }

  lemma EarlierIsSelected(env: Env, s: Store, limit: nat, e: Event, earlier: Event)
    requires Proper(env) && AllSound(env, s)
    requires e in Select(s, env.max, limit) && earlier.id < e.id && earlier.certificateId == e.certificateId
    requires earlier in LogOf(s.events, e.certificateId) && ToSynchronize(earlier) && !Done(s.attempts, earlier.id)
    ensures earlier in LogOf(Select(s, env.max, limit), e.certificateId)
  {
    hide LogOf, Sound, Select, FailedCertificate;
    SelectionFacts(env.clock, s, env.max, limit);
    UndoneIsSelectable(env, s, earlier);
    SelectionIsPrefix(env.clock, s, env.max, limit, e, earlier);
    IncreasingLog(Select(s, env.max, limit), e.certificateId);
  }

  lemma {:induction false} IncreasingLog(events: seq<Event>, id: CertId)
    requires Increasing(events)
    ensures Increasing(LogOf(events, id))
    ensures forall e :: e in LogOf(events, id) <==> e in events && e.certificateId == id
  {
    if events != [] {
      var n := |events| - 1;
      IncreasingLog(events[..n], id);
      assert events == events[..n] + [events[n]];
      var before := LogOf(events[..n], id);
      forall i | 0 <= i < |before| ensures before[i].id < events[n].id {
        assert before[i] in before;
        var k :| 0 <= k < n && events[..n][k] == before[i];
      }
    }
  }

  // ----- one pass

  ghost function PassContext(env: Env, w: World, limit: nat): Context {
    Context(env, w.store.attempts, Select(w.store, env.max, limit), Accepting(env, w.chain.calls))
  }

  lemma PassStarts(env: Env, w: World, limit: nat)
    requires Proper(env) && Inv(env, w)
    ensures var selected := Select(w.store, env.max, limit);
            var y := Sync(w, QueueOf(selected), []);
            Between(PassContext(env, w, limit), y, []) && WellQueued(y.queue)
  {
    hide AllSound, ChainAgrees, HistoryFits, LogOf, Select, QueueOf, Sorted, InLine, SortByTime, Settled;
    var selected := Select(w.store, env.max, limit);
    var x := PassContext(env, w, limit);
    var q := QueueOf(selected);
    assert Sorted(selected) by { SelectionIsSorted(env, w.store, limit); }
    SortOfSorted(selected);
    QueueOfEvents(selected, 0);
    forall id ensures StandingOf(x, w.store, [], q, [], id) && |LogOf([], id)| <= 1 {
      QueueOfEvents(selected, id);
      LogOfEmpty([], id);
      assert LineOf([], q, [], id) == LogOf(selected, id);
      SelectionLinesUp(env, w.store, limit, id);
    }
  }

  lemma SelectionIsSorted(env: Env, s: Store, limit: nat)
    requires AllSound(env, s)
    ensures Sorted(Select(s, env.max, limit))
    ensures forall i :: 0 <= i < |Select(s, env.max, limit)| ==> StoredAt(s.events, Select(s, env.max, limit)[i])
  {
    hide Select, Selectable, LogOf, Sound;
    SelectionFacts(env.clock, s, env.max, limit);
    forall i | 0 <= i < |Select(s, env.max, limit)| ensures StoredAt(s.events, Select(s, env.max, limit)[i]) {
      assert Select(s, env.max, limit)[i] in Select(s, env.max, limit);
    }
  }

  lemma NobodyWaits(x: Context, y: Sync, e: Event)
    requires Between(x, y, []) && IsEmptyQueue(y.queue) && e in LogOf(x.selected, e.certificateId)
    ensures Settled(x.start, y.world.store.attempts, LogOf(y.world.store.events, e.certificateId), e)
    ensures Count(y.world.store.attempts, e.id) <= Count(x.start, e.id) + 1
  {
    hide AllSound, ChainAgrees, HistoryFits, LogOf, InLine, Settled;
    var id := e.certificateId;
    assert StandingOf(x, y.world.store, [], y.queue, [], id);
    LogOfEmpty([], id);
    assert LineOf([], y.queue, [], id) == [];
    var i :| 0 <= i < |LogOf(x.selected, id)| && LogOf(x.selected, id)[i] == e;
  }

  /**
   * One pass: every selected event is attempted exactly once, or is stopped by an earlier event of
   * its certificate that was attempted exactly once and failed; no event is attempted twice, none that
   * was not selected is attempted at all, and no exception escapes.
   */
  lemma PassOutcome(env: Env, w: World, limit: nat)
    requires Proper(env) && Inv(env, w)
    ensures var w' := Pass(env, w, limit);
            && Inv(env, w') && Moved(PassContext(env, w, limit), w.store, w'.store)
            && Spared(Select(w.store, env.max, limit), w.store, w'.store)
            && forall e :: e in Select(w.store, env.max, limit) ==>
                 && Settled(w.store.attempts, w'.store.attempts, LogOf(w'.store.events, e.certificateId), e)
                 && Count(w'.store.attempts, e.id) <= Count(w.store.attempts, e.id) + 1
  {
    hide AllSound, ChainAgrees, HistoryFits, AllStanding, LogOf, Select, QueueOf, Rounds, Moved, Settled, Retired,
         IsEmptyQueue, WellQueued;
    var selected := Select(w.store, env.max, limit);
    var x := PassContext(env, w, limit);
    var y := Sync(w, QueueOf(selected), []);
    PassStarts(env, w, limit);
    RoundsAreGood(x, y);
    var y' := Rounds(env, y);
    SelectionIncreases(env, w.store, limit);
    assert Spared(selected, w.store, y'.world.store) by { MovedSpares(x, w.store, y'.world.store); }
    forall e | e in selected
      ensures Settled(w.store.attempts, y'.world.store.attempts, LogOf(y'.world.store.events, e.certificateId), e)
      ensures Count(y'.world.store.attempts, e.id) <= Count(w.store.attempts, e.id) + 1
    {
      IncreasingLog(selected, e.certificateId);
      NobodyWaits(x, y', e);
    }
  }

  lemma MovedSpares(x: Context, s: Store, s': Store)
    requires Moved(x, s, s')
    ensures Spared(x.selected, s, s')
  {
    hide Advanced, Spared, LogOf, Grew;
  }

  lemma SelectionIncreases(env: Env, s: Store, limit: nat)
    requires AllSound(env, s)
    ensures Increasing(Select(s, env.max, limit))
  {
    hide Select, Selectable, LogOf, Sound;
    SelectionFacts(env.clock, s, env.max, limit);
  }

  // ----- every run

  lemma EmptyStoreIsSound(env: Env)
    requires Proper(env)
    ensures Inv(env, EMPTY_WORLD)
  {
    forall id ensures LogOf([], id) == [] { }
    assert ToPersist([]) == 0;
  }

  lemma ServeKeepsInv(env: Env, w: World, r: Request)
    requires Inv(env, w)
    ensures Inv(env, w.(store := Serve(env.clock, w.store, r)))
  {
    hide Serve, LogOf, Delivered, Sound, OnlyGrew, ModelsAgree, HasAttempts, OnRecord, Receipts, CallsFit;
    var s' := Serve(env.clock, w.store, r);
    ServeGrows(env.clock, w.store, r);
    GrowthIsAllSound(env, w.store, s');
    GrowthDeliversNothing(w.store, s');
    ServeRecordsNothing(env.clock, w.store, r);
  }

  /** The invariant holds of every world that any run reaches, and no exception ever escapes. */
  lemma {:induction false} EveryRun(env: Env, actions: seq<Action>)
    requires Proper(env)
    ensures Inv(env, After(env, actions))
  {
    hide Inv, Pass, Serve, Proper;
    if actions == [] {
      EmptyStoreIsSound(env);
    } else {
      var n := |actions| - 1;
      EveryRun(env, actions[..n]);
      var before := After(env, actions[..n]);
      match actions[n]
      case Ask(request) => ServeKeepsInv(env, before, request);
      case Run(limit) => PassOutcome(env, before, limit);
    }
  }

  /**
   * Ordered, at-most-once delivery: what the blockchain has accepted of a certificate is the first
   * part of its outgoing events, in the order of its log, each once.
   */
  lemma DeliveryIsOrdered(env: Env, actions: seq<Action>, id: CertId)
    requires Proper(env)
    ensures var w := After(env, actions);
            && LogOf(w.chain.accepted, id) <= Outgoing(LogOf(w.store.events, id))
            && Increasing(Outgoing(LogOf(w.store.events, id)))
  {
    hide After, LogOf, Delivered, Identified, Bounded, HasRows, Consistent;
    EveryRun(env, actions);
    var w := After(env, actions);
    var log := LogOf(w.store.events, id);
    assert Sound(env.max, w.store.attempts, log);
    DeliveredIsPrefix(w.store.attempts, log);
    OutgoingFacts(log);
  }

  /** The blockchain has accepted every event of the certificate that goes out. */
  ghost predicate InFull(w: World, id: CertId) {
    LogOf(w.chain.accepted, id) == Outgoing(LogOf(w.store.events, id))
  }

  /**
   * The read model of a certificate says that it is synchronised exactly when the blockchain has
   * accepted every one of its outgoing events.
   */
  lemma SyncFlagIsExact(env: Env, actions: seq<Action>, id: CertId)
    requires Proper(env)
    requires id in After(env, actions).store.models
    ensures var w := After(env, actions);
            w.store.models[id].isSynced <==> InFull(w, id)
  {
    hide After, LogOf, Delivered, Owed, Fold, Identified, Bounded, HasRows, InOrder;
    EveryRun(env, actions);
    var w := After(env, actions);
    var log := LogOf(w.store.events, id);
    assert Sound(env.max, w.store.attempts, log);
    assert FromEvents(log) == Ok(w.store.models[id]);
    assert w.store.models[id].isSynced <==> ToPersist(log) == 0;
    DeliveredAndOwed(w.store.attempts, log);
  }

  /**
   * The stored read model of a certificate is what its stored events make of it, whatever commands,
   * batches, records and errors the run consisted of.
   */
  lemma ReadModelsAgree(env: Env, actions: seq<Action>, id: CertId)
    requires Proper(env)
    ensures var s := After(env, actions).store;
            if LogOf(s.events, id) == [] then id !in s.models
            else id in s.models && FromEvents(LogOf(s.events, id)) == Ok(s.models[id])
  {
    hide After, LogOf, FromEvents;
    EveryRun(env, actions);
    assert ModelsAgree(After(env, actions).store);
  }

  /** No request is ever refused because too many of the certificate's events were recorded as persisted. */
  lemma NeverTooManyPersisted(env: Env, actions: seq<Action>, id: CertId, payload: Payload)
    requires Proper(env) && NewPayload(payload)
    ensures var s := After(env, actions).store;
            Aggregate(s, NewEvent(env.clock, s, id, payload)) != Err(TooManyPersisted)
  {
    hide After, LogOf, Owed, Identified, Bounded, HasRows, InOrder;
    EveryRun(env, actions);
    var s := After(env, actions).store;
    var log, e := LogOf(s.events, id), NewEvent(env.clock, s, id, payload);
    assert Sound(env.max, s.attempts, log);
    assert (log + [e])[..|log|] == log;
    assert ToPersist(log + [e]) == ToPersist(log) + 1;
    FoldNeverTooMany(SortByTime(log + [e]));
  }

  lemma {:induction false} FoldNeverTooMany(log: seq<Event>)
    ensures Fold(log) != Err(TooManyPersisted)
  {
    if |log| > 1 {
      FoldNeverTooMany(log[..|log| - 1]);
    }
  }

  /** No event is ever attempted more often than allowed. */
  lemma AttemptsAreBounded(env: Env, actions: seq<Action>, eventId: nat)
    requires Proper(env)
    ensures Count(After(env, actions).store.attempts, eventId) <= env.max
  {
    hide After, LogOf, Sound;
    EveryRun(env, actions);
    var s := After(env, actions).store;
    if eventId in s.attempts {
      assert HasAttempts(s);
      CountIsBounded(env, s, eventId);
    }
  }

  /**
   * Nothing is left to select exactly when every certificate either has an event whose attempts
   * reached the limit or has been accepted by the blockchain in full.
   */
  lemma NothingToSelect(env: Env, w: World, limit: nat)
    requires Proper(env) && Inv(env, w)
    ensures Select(w.store, env.max, limit) == [] <==>
            forall id :: FailedCertificate(w.store, env.max, id) || InFull(w, id)
  {
    hide Select, FailedCertificate, LogOf, Delivered, Owed, Sound, Selectable, Consistent;
    SelectedExactlyWhen(env, w.store, limit);
    forall id
      ensures InFull(w, id) <==> Owed(w.store.attempts, LogOf(w.store.events, id)) == 0
    {
      DeliveredAndOwed(w.store.attempts, LogOf(w.store.events, id));
    }
  }

  lemma SelectedExactlyWhen(env: Env, s: Store, limit: nat)
    requires Proper(env) && AllSound(env, s)
    ensures Select(s, env.max, limit) == [] <==>
            forall id :: FailedCertificate(s, env.max, id) || Owed(s.attempts, LogOf(s.events, id)) == 0
  {
    hide Select, FailedCertificate, LogOf, Owed, Sound;
    SelectionFacts(env.clock, s, env.max, limit);
    if Select(s, env.max, limit) == [] {
      forall id ensures FailedCertificate(s, env.max, id) || Owed(s.attempts, LogOf(s.events, id)) == 0 {
        if !FailedCertificate(s, env.max, id) && Owed(s.attempts, LogOf(s.events, id)) > 0 {
          var e := OwedHasEvent(s.attempts, LogOf(s.events, id));
          StoredLog(env.clock, s, id);
          UndoneIsSelectable(env, s, e);
        }
      }
    } else {
      var e := Select(s, env.max, limit)[0];
      assert e in Select(s, env.max, limit);
      SelectableIsUndone(env, s, e);
      OwedAtLeastOne(s.attempts, LogOf(s.events, e.certificateId), e);
    }
  }

  lemma OwedHasEvent(a: Attempts, log: seq<Event>) returns (e: Event)
    requires Owed(a, log) > 0
    ensures e in log && ToSynchronize(e) && !Done(a, e.id)
  {
    DeliveredAndOwed(a, log);
    var i :| 0 <= i < |log| && ToSynchronize(log[i]) && !Done(a, log[i].id);
    e := log[i];
  }

  // ----- every pass makes progress

  /** How many attempts the first n events have had. */
  function Attempted(a: Attempts, n: nat): nat {
    if n == 0 then 0 else Attempted(a, n - 1) + Count(a, n)
  }

  lemma {:induction false} AttemptedGrows(a: Attempts, a': Attempts, n: nat)
    requires forall id :: Count(a, id) <= Count(a', id)
    ensures Attempted(a, n) <= Attempted(a', n)
    ensures (exists id :: 1 <= id <= n && Count(a, id) < Count(a', id)) ==> Attempted(a, n) < Attempted(a', n)
  {
    if n > 0 {
      AttemptedGrows(a, a', n - 1);
      assert Count(a, n) <= Count(a', n);
    }
  }

  lemma {:induction false} AttemptedIsMonotone(a: Attempts, m: nat, n: nat)
    requires m <= n
    ensures Attempted(a, m) <= Attempted(a, n)
  {
    if m < n {
      AttemptedIsMonotone(a, m, n - 1);
    }
  }

  function TotalAttempts(s: Store): nat {
    Attempted(s.attempts, |s.events|)
  }

  lemma CountsRise(s: Store, s': Store, well: bool)
    requires Advanced(s, s', well)
    ensures forall id :: Count(s.attempts, id) <= Count(s'.attempts, id)
  {
    forall id ensures Count(s.attempts, id) <= Count(s'.attempts, id) {
      assert RowMoved(RowOf(s.attempts, id), RowOf(s'.attempts, id), well);
    }
  }

  /** A pass that selects anything adds at least one attempt to the total. */
  lemma PassMakesProgress(env: Env, w: World, limit: nat)
    requires Proper(env) && Inv(env, w) && Select(w.store, env.max, limit) != []
    ensures TotalAttempts(Pass(env, w, limit).store) > TotalAttempts(w.store)
  {
    hide Select, LogOf, Sound, Pass, ChainAgrees, HistoryFits;
    var e := Select(w.store, env.max, limit)[0];
    var w' := Pass(env, w, limit);
    assert e in Select(w.store, env.max, limit);
    PassOutcome(env, w, limit);
    SelectionIsSorted(env, w.store, limit);
    var log := LogOf(w'.store.events, e.certificateId);
    var k :| SettledBy(w.store.attempts, w'.store.attempts, log, e, k);
    StoredLog(env.clock, w'.store, e.certificateId);
    assert 1 <= log[k].id <= e.id <= |w.store.events|;
    CountsRise(w.store, w'.store, Accepting(env, w.chain.calls));
    AttemptedGrows(w.store.attempts, w'.store.attempts, |w.store.events|);
    AttemptedIsMonotone(w'.store.attempts, |w.store.events|, |w'.store.events|);
  }

  lemma {:induction false} AttemptedWithin(a: Attempts, a': Attempts, n: nat, ids: set<nat>)
    requires forall id :: 1 <= id <= n ==> Count(a', id) <= Count(a, id) + if id in ids then 1 else 0
    ensures Attempted(a', n) <= Attempted(a, n) + |ids|
  {
    if n > 0 {
      AttemptedWithin(a, a', n - 1, ids - {n});
      assert Count(a', n) <= Count(a, n) + if n in ids then 1 else 0;
    }
  }

  function IdsOf(events: seq<Event>): set<nat> {
    set i | 0 <= i < |events| :: events[i].id
  }

  lemma {:induction false} IdsAreFew(events: seq<Event>)
    ensures |IdsOf(events)| <= |events|
  {
    if events != [] {
      var n := |events| - 1;
      IdsAreFew(events[..n]);
      assert IdsOf(events) == IdsOf(events[..n]) + {events[n].id};
    }
  }

  lemma {:induction false} NothingAttemptedYet(s: Store, n: nat)
    requires HasAttempts(s) && |s.events| <= n
    ensures Attempted(s.attempts, n) == TotalAttempts(s)
  {
    if |s.events| < n {
      NothingAttemptedYet(s, n - 1);
    }
  }

  lemma CountsWithin(env: Env, w: World, limit: nat)
    requires Proper(env) && Inv(env, w)
    ensures var s, s', selected := w.store, Pass(env, w, limit).store, Select(w.store, env.max, limit);
            && s.events <= s'.events
            && forall id :: Count(s'.attempts, id) <= Count(s.attempts, id) + if id in IdsOf(selected) then 1 else 0
  {
    hide Inv, Select, Pass, Settled, Moved;
    var s, s', selected := w.store, Pass(env, w, limit).store, Select(w.store, env.max, limit);
    PassOutcome(env, w, limit);
    assert s.events <= s'.events by { MovedAdvances(PassContext(env, w, limit), s, s'); }
    forall id ensures Count(s'.attempts, id) <= Count(s.attempts, id) + if id in IdsOf(selected) then 1 else 0 {
      if HasId(selected, id) {
        var i :| 0 <= i < |selected| && selected[i].id == id;
        assert selected[i] in selected;
      } else {
        assert RowOf(s'.attempts, id) == RowOf(s.attempts, id);
      }
    }
  }

  lemma RowsAreOfEvents(env: Env, w: World)
    requires Inv(env, w)
    ensures HasAttempts(w.store)
  {
    hide LogOf, Sound, ChainAgrees, HistoryFits, HasAttempts, ModelsAgree;
  }

  /** A pass makes at most as many attempts as it selects events, which its limit bounds. */
  lemma PassIsBounded(env: Env, w: World, limit: nat)
    requires Proper(env) && Inv(env, w)
    ensures TotalAttempts(Pass(env, w, limit).store) <= TotalAttempts(w.store) + |Select(w.store, env.max, limit)|
    ensures limit > 0 ==> |Select(w.store, env.max, limit)| <= limit
  {
    assert limit > 0 ==> |Select(w.store, env.max, limit)| <= limit;
    hide Inv, Select, Pass, Count;
    var s, s', selected := w.store, Pass(env, w, limit).store, Select(w.store, env.max, limit);
    CountsWithin(env, w, limit);
    RowsAreOfEvents(env, w);
    AttemptedWithin(s.attempts, s'.attempts, |s'.events|, IdsOf(selected));
    IdsAreFew(selected);
    NothingAttemptedYet(s, |s'.events|);
  }

  lemma MovedAdvances(x: Context, s: Store, s': Store)
    requires Moved(x, s, s')
    ensures Advanced(s, s', x.well)
  {
    hide Advanced, Spared, LogOf, Grew;
  }

  lemma CountIsBounded(env: Env, s: Store, n: nat)
    requires AllSound(env, s) && 1 <= n <= |s.events|
    ensures Count(s.attempts, n) <= if ToSynchronize(s.events[n - 1]) then env.max else 0
  {
    hide LogOf, Owed, ToPersist, Identified, InOrder, ModelsAgree;
    var e := s.events[n - 1];
    var log := LogOf(s.events, e.certificateId);
    StoredLog(env.clock, s, e.certificateId);
    assert e in log && Sound(env.max, s.attempts, log);
    var i :| 0 <= i < |log| && log[i] == e;
  }

  lemma {:induction false} AttemptedIsBounded(env: Env, s: Store, n: nat)
    requires AllSound(env, s) && n <= |s.events|
    ensures Attempted(s.attempts, n) <= env.max * |Outgoing(s.events[..n])|
  {
    hide AllSound, Count;
    if n > 0 {
      AttemptedIsBounded(env, s, n - 1);
      assert s.events[..n][..n - 1] == s.events[..n - 1];
      CountIsBounded(env, s, n);
      OneMore(env.max, |Outgoing(s.events[..n - 1])|);
    }
  }

  /** A job that still finds something to select after a number of passes has made at least that many attempts. */
  lemma {:induction false} TaskMakesProgress(env: Env, w: World, passes: nat)
    requires Proper(env) && Inv(env, w)
    ensures var w' := Task(env, w, passes);
            && Inv(env, w')
            && (Select(w'.store, env.max, 500) == []
                || TotalAttempts(w.store) + passes <= TotalAttempts(w'.store))
            && TotalAttempts(w'.store) <= env.max * |Outgoing(w'.store.events)|
    decreases passes
  {
    hide Inv, Select, Pass, TotalAttempts, Proper;
    if passes == 0 || w.thrown || Select(w.store, env.max, PASS_LIMIT) == [] {
      AttemptsWithinLimits(env, w);
    } else {
      PassOutcome(env, w, PASS_LIMIT);
      PassMakesProgress(env, w, PASS_LIMIT);
      TaskMakesProgress(env, Pass(env, w, PASS_LIMIT), passes - 1);
    }
  }

  /** The attempts that are left: what the limit allows for all outgoing events, less what they have had. */
  function Remaining(env: Env, s: Store): int {
    env.max * |Outgoing(s.events)| - TotalAttempts(s)
  }

  /**
   * A pass that selects anything lowers the attempts that are left: strictly while nothing is requested,
   * and otherwise by more than newly arrived events raise them.
   */
  lemma RemainingFalls(env: Env, w: World, limit: nat)
    requires Proper(env) && Inv(env, w) && Select(w.store, env.max, limit) != []
    ensures var w' := Pass(env, w, limit);
            && 0 <= Remaining(env, w'.store)
            && Remaining(env, w'.store) < Remaining(env, w.store)
                 + env.max * (|Outgoing(w'.store.events)| - |Outgoing(w.store.events)|)
            && (Quiet(env, w.chain.calls) ==> Remaining(env, w'.store) < Remaining(env, w.store))
  {
    hide Inv, Select, Pass, TotalAttempts, Outgoing, Proper, Quiet;
    PassMakesProgress(env, w, limit);
    PassOutcome(env, w, limit);
    AttemptsWithinLimits(env, Pass(env, w, limit));
    Distributes(env.max, |Outgoing(Pass(env, w, limit).store.events)|, |Outgoing(w.store.events)|);
    if Quiet(env, w.chain.calls) {
      PassIsCalm(env, w, limit);
    }
  }

  lemma Distributes(max: nat, a: nat, b: nat)
    ensures max * (a - b) == max * a - max * b
  {
  }

  lemma AttemptsWithinLimits(env: Env, w: World)
    requires Inv(env, w)
    ensures TotalAttempts(w.store) <= env.max * |Outgoing(w.store.events)| && !w.thrown
  {
    hide AllSound, ChainAgrees, HistoryFits;
    AttemptedIsBounded(env, w.store, |w.store.events|);
    assert w.store.events[..|w.store.events|] == w.store.events;
  }

  // ----- while nothing is requested

  /**
   * While nothing is requested, a job with as many passes as attempts are left selects until nothing is
   * left to select.
   */
  lemma {:induction false} TaskRunsDry(env: Env, w: World, passes: nat)
    requires Proper(env) && Inv(env, w) && Quiet(env, w.chain.calls) && Remaining(env, w.store) <= passes
    ensures var w' := Task(env, w, passes);
            Inv(env, w') && Calm(w, w') && Select(w'.store, env.max, PASS_LIMIT) == []
    decreases passes
  {
    hide Inv, Select, Pass, Remaining, Proper, Quiet, Outgoing;
    if Select(w.store, env.max, PASS_LIMIT) != [] {
      GoesOn(env, w);
      RemainingFalls(env, w, PASS_LIMIT);
      PassOutcome(env, w, PASS_LIMIT);
      PassIsCalm(env, w, PASS_LIMIT);
      TaskRunsDry(env, Pass(env, w, PASS_LIMIT), passes - 1);
    }
  }

  lemma GoesOn(env: Env, w: World)
    requires Inv(env, w)
    ensures !w.thrown
  {
    hide AllSound, ChainAgrees, HistoryFits;
  }

  /**
   * Retries end: while nothing is requested, a job with as many passes as attempts are left leaves every
   * certificate either with an event whose attempts reached the limit or accepted in full, whatever the
   * blockchain answers.
   */
  lemma RetriesEnd(env: Env, w: World, passes: nat)
    requires Proper(env) && Inv(env, w) && Quiet(env, w.chain.calls) && Remaining(env, w.store) <= passes
    ensures var w' := Task(env, w, passes);
            forall id :: FailedCertificate(w'.store, env.max, id) || InFull(w', id)
  {
    hide Inv, Select, Task, Remaining, Proper, Quiet, FailedCertificate, LogOf, Outgoing;
    TaskRunsDry(env, w, passes);
    NothingToSelect(env, Task(env, w, passes), PASS_LIMIT);
  }

  /** Job after job, each with the passes that one job may do. */
  ghost function Jobs(env: Env, w: World, jobs: nat): World
    requires Proper(env)
    decreases jobs
  {
    if jobs == 0 then w else Jobs(env, Task(env, w, PASSES_PER_TASK), jobs - 1)
  }

  /** Two jobs in a row do what one job with the passes of both does. */
  lemma {:induction false} TaskInParts(env: Env, w: World, first: nat, second: nat)
    requires Proper(env)
    ensures Task(env, Task(env, w, first), second) == Task(env, w, first + second)
    decreases first
  {
    hide Select, Pass, Proper;
    if first > 0 && !w.thrown && Select(w.store, env.max, PASS_LIMIT) != [] {
      TaskInParts(env, Pass(env, w, PASS_LIMIT), first - 1, second);
    }
  }

  lemma {:induction false} JobsAreOneTask(env: Env, w: World, jobs: nat)
    requires Proper(env)
    ensures Jobs(env, w, jobs) == Task(env, w, 50 * jobs)
    decreases jobs
  {
    hide Task, Proper;
    if jobs == 0 {
      NoPasses(env, w);
    } else {
      JobsAreOneTask(env, Task(env, w, PASSES_PER_TASK), jobs - 1);
      TaskInParts(env, w, PASSES_PER_TASK, PASSES_PER_TASK * (jobs - 1));
    }
  }

  lemma NoPasses(env: Env, w: World)
    requires Proper(env)
    ensures Task(env, w, 0) == w
  {
  }

  /** The same for job after job: with fifty passes each, one job for every fifty attempts that are left is enough. */
  lemma {:induction false} JobsEndRetries(env: Env, w: World, jobs: nat)
    requires Proper(env) && Inv(env, w) && Quiet(env, w.chain.calls)
    requires Remaining(env, w.store) <= PASSES_PER_TASK * jobs
    ensures var w' := Jobs(env, w, jobs);
            forall id :: FailedCertificate(w'.store, env.max, id) || InFull(w', id)
  {
    hide Inv, Select, Task, Remaining, Proper, Quiet, FailedCertificate, LogOf, Outgoing;
    JobsAreOneTask(env, w, jobs);
    RetriesEnd(env, w, PASSES_PER_TASK * jobs);
  }
}
