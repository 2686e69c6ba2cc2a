/** Certificates that an accepting blockchain never synchronises, in concrete runs. */
module SyncExamples {
  import opened CertificateEvents
  import opened CertificateAggregate
  import opened CertificateStore
  import opened CertificateStoreFacts
  import opened CertificateBatch
  import opened SyncProtocol
  import opened SyncLog
  import opened SyncStore
  import opened SyncHistory
  import opened SyncBlock
  import opened SyncQuiet
  import opened SyncRun
  import opened SyncOutcome

  // ----- a transfer of some of what was issued

  /** A log with nothing but the issuance going out leaves all energy with the first owner. */
  lemma {:induction false} FoldOfRecords(log: seq<Event>)
    requires log != [] && log[0].payload.Issued? && Outgoing(log) == [log[0]]
    ensures Fold(log).Ok? && Fold(log).value.owners == map[log[0].payload.toAddress := log[0].payload.issued]
  {
    var n := |log| - 1;
    if n > 0 {
      OutgoingStarts(log[..n]);
      assert log[..n][0] == log[0];
      FoldOfRecords(log[..n]);
    }
  }

  lemma {:induction false} OutgoingStarts(log: seq<Event>)
    requires log != [] && ToSynchronize(log[0])
    ensures Outgoing(log) != [] && Outgoing(log)[0] == log[0]
  {
    if |log| > 1 {
      OutgoingStarts(log[..|log| - 1]);
    }
  }

  const FIRST_OWNER := Account(1)

  const ISSUE_TEN := IssueCommand(FIRST_OWNER, 10, "")

  function TransferFive(id: CertId): TargetedOrder {
    TransferCommand(id, FIRST_OWNER, Account(2), 5)
  }

  function Issuing(): Action {
    Ask(IssueOne(ISSUE_TEN))
  }

  function Transferring(id: CertId): Action {
    Ask(OnOne(TransferFive(id)))
  }

  /** One attempt is allowed for each event, everything is accepted, and nothing is requested during a pass. */
  ghost predicate OneAttempt(env: Env) {
    Proper(env) && env.max == 1 && Serene(env, 0)
  }

  /** The n-th stored event as the issuance of the n-th certificate. */
  function IssuanceEvent(env: Env, n: nat): Event
    requires n > 0
  {
    Event(n, n, env.clock(n - 1), Issued(FIRST_OWNER, 10, ""))
  }

  /** A log that starts with the issuance and has no other event that goes out. */
  ghost predicate StartsWithIssuance(env: Env, log: seq<Event>, n: nat)
    requires n > 0
  {
    log != [] && log[0] == IssuanceEvent(env, n) && Outgoing(log) == [IssuanceEvent(env, n)]
  }

  lemma SingleEvent(e: Event)
    requires ToSynchronize(e)
    ensures Outgoing([e]) == [e] && LogOf([e], e.certificateId) == [e]
  {
    assert [e][..0] == [];
  }

  /** A transfer after nothing but the issuance is accepted. */
  lemma TransferIsStored(env: Env, s: Store, n: nat)
    requires AllSound(env, s) && n > 0 && StartsWithIssuance(env, LogOf(s.events, n), n)
    ensures var s' := Serve(env.clock, s, OnOne(TransferFive(n)));
            var t := NewEvent(env.clock, s, n, PayloadOf(TransferFive(n)));
            s'.events == s.events + [t] && LogOf(s'.events, n) == LogOf(s.events, n) + [t]
  {
    hide LogOf, Outgoing, ModelsAgree, Sound, UpdateAttempt;
    var log := LogOf(s.events, n);
    var t := NewEvent(env.clock, s, n, PayloadOf(TransferFive(n)));
    StoredLogOwes(env.clock, s, n);
    StoredLog(env.clock, s, n);
    FoldOfRecords(log);
    assert (log + [t])[..|log|] == log;
    assert Sorted(log + [t]) by {
      forall i | 0 <= i < |log| ensures log[i].createdAt <= t.createdAt {
        assert log[i] in log;
        assert s.events[log[i].id - 1].createdAt == env.clock(log[i].id - 1);
      }
    }
    FromSortedEvents(log + [t]);
    assert Aggregate(Record(s, TransferFive(n)), t).Ok?;
    LogOfAppend(s.events, t, n);
  }

  // ----- a certificate that fails by succeeding

  lemma Issuance(env: Env)
    requires OneAttempt(env)
    ensures var w := After(env, [Issuing()]);
            && w.store.events == [IssuanceEvent(env, 1)] && w.store.attempts == map[1 := Attempt(0, false)]
            && w.chain.calls == 0
  {
    assert [Issuing()][..0] == [];
    assert After(env, [Issuing()]) == Step(env, EMPTY_WORLD, Issuing());
    hide After, Aggregate;
    EmptyStoreIsSound(env);
    var s := EMPTY_STORE.(serial := 1);
    FreshIssuance(env.clock, EMPTY_STORE, Issued(FIRST_OWNER, 10, ""));
    SameAggregate(EMPTY_STORE, Record(s, ISSUE_TEN), IssuanceEvent(env, 1));
    NothingToUpdate(map[1 := Attempt(0, false)], false);
    assert EMPTY_STORE.events + [IssuanceEvent(env, 1)] == [IssuanceEvent(env, 1)];
  }

  /** After one pass the issuance is accepted, and the certificate counts as failed. */
  lemma IssuanceAccepted(env: Env)
    requires OneAttempt(env)
    ensures var w := After(env, [Issuing(), Run(0)]);
            && Inv(env, w) && Done(w.store.attempts, 1) && FailedCertificate(w.store, env.max, 1)
            && StartsWithIssuance(env, LogOf(w.store.events, 1), 1)
  {
    hide Pass, Outgoing, Select, ChainAgrees, HistoryFits, Sound;
    var e := IssuanceEvent(env, 1);
    var before, w := After(env, [Issuing()]), After(env, [Issuing(), Run(0)]);
    EveryRun(env, [Issuing()]);
    EveryRun(env, [Issuing(), Run(0)]);
    Issuance(env);
    assert [Issuing(), Run(0)][..1] == [Issuing()];
    assert w == Pass(env, before, 0);
    hide After;
    UnlimitedSelection(env, before.store, e) by { assert !FailedCertificate(before.store, env.max, 1); }
    AcceptingPassDelivers(env, before, 0);
    PassIsCalm(env, before, 0);
    PassOutcome(env, before, 0);
    IssuanceIsFirst(env, w.store);
    assert w.store.events[0] == e;
  }

  lemma IssuanceIsFirst(env: Env, s: Store)
    requires [IssuanceEvent(env, 1)] <= s.events && Outgoing(s.events) == Outgoing([IssuanceEvent(env, 1)])
    ensures StartsWithIssuance(env, LogOf(s.events, 1), 1)
  {
    hide LogOf, Outgoing;
    var e := IssuanceEvent(env, 1);
    SingleEvent(e);
    OutgoingOfLog(s.events, 1);
    LogOfConcat([e], s.events[1..], 1);
    assert [e] + s.events[1..] == s.events;
  }

  /**
   * With one attempt allowed and everything accepted, a certificate that is issued, synchronised and then
   * transferred never becomes synchronised again, although none of its events has ever had an error.
   */
  lemma FailedBySucceeding(env: Env, more: seq<Action>)
    requires OneAttempt(env)
    ensures var s := After(env, [Issuing(), Run(0), Transferring(1)] + more).store;
            && 1 in s.models && !s.models[1].isSynced
            && forall i :: 0 <= i < |LogOf(s.events, 1)| ==> !RowOf(s.attempts, LogOf(s.events, 1)[i].id).error
  {
    hide LogOf, Outgoing, Sound, Consistent, Serve, FailedCertificate, Delivered;
    var actions := [Issuing(), Run(0), Transferring(1)];
    var synced, w, w' := After(env, [Issuing(), Run(0)]), After(env, actions), After(env, actions + more);
    assert actions[..2] == [Issuing(), Run(0)];
    assert w == Step(env, synced, Transferring(1));
    hide After;
    IssuanceAccepted(env);
    StepLeavesFailed(env, synced, Transferring(1), 1);
    TransferIsStored(env, synced.store, 1);
    var t := NewEvent(env.clock, synced.store, 1, PayloadOf(TransferFive(1)));
    OutgoingAppend(LogOf(synced.store.events, 1), t);
    EveryRun(env, actions);
    GrowthDelivers(synced.store.attempts, LogOf(synced.store.events, 1), w.store.attempts, LogOf(w.store.events, 1));
    DeliveredAndOwed(synced.store.attempts, LogOf(synced.store.events, 1));
    NeverSynchronised(env, actions, more, 1);
    FailedForGood(env, actions, more, 1);
    GrewTransitive(synced.store.attempts, LogOf(synced.store.events, 1), w.store.attempts, LogOf(w.store.events, 1),
                   w'.store.attempts, LogOf(w'.store.events, 1));
    NoErrors(env, synced.store, w'.store);
  }

  lemma NoErrors(env: Env, s: Store, s': Store)
    requires AllSound(env, s) && Done(s.attempts, 1) && Outgoing(LogOf(s.events, 1)) == [IssuanceEvent(env, 1)]
    requires Grew(s.attempts, LogOf(s.events, 1), s'.attempts, LogOf(s'.events, 1))
    ensures forall i :: 0 <= i < |LogOf(s'.events, 1)| ==> !RowOf(s'.attempts, LogOf(s'.events, 1)[i].id).error
  {
    hide LogOf, Outgoing, InOrder, Bounded, Identified, ToPersist, Owed;
    var log, log' := LogOf(s.events, 1), LogOf(s'.events, 1);
    assert Sound(env.max, s.attempts, log);
    OutgoingFacts(log);
    forall i | 0 <= i < |log'| ensures !RowOf(s'.attempts, log'[i].id).error {
      if i < |log| {
        assert log'[i] == log[i] && log[i] in log;
        if ToSynchronize(log[i]) {
          assert log[i] in [IssuanceEvent(env, 1)];
        }
      }
    }
  }

  // ----- a certificate that the limit of a pass cuts

  function Copies(n: nat): (orders: seq<IssueOrder>)
    ensures |orders| == n
  {
    seq(n, i => ISSUE_TEN)
  }

  /**
   * Several issuances in one batch, a transfer of the last certificate, and a pass for as many events
   * as were issued.
   */
  function CutRun(n: nat): seq<Action> {
    [Ask(IssueMany(Copies(n))), Transferring(n), Run(n)]
  }

  ghost predicate AllIssued(env: Env, events: seq<Event>, n: nat) {
    |events| == n && forall i :: 0 <= i < n ==> events[i] == IssuanceEvent(env, i + 1)
  }

  lemma ManyIssued(env: Env, n: nat)
    requires OneAttempt(env)
    ensures var w := After(env, CutRun(n)[..1]);
            AllIssued(env, w.store.events, n) && w.chain.calls == 0 && Extended(EMPTY_STORE, w.store)
  {
    var request := IssueMany(Copies(n));
    assert CutRun(n)[..1] == [Ask(request)] && [Ask(request)][..0] == [];
    assert After(env, [Ask(request)]) == Step(env, EMPTY_WORLD, Ask(request));
    hide After, BatchIssue, Extended, Consistent, AllIssued;
    EmptyStoreIsSound(env);
    ServeExtends(env.clock, EMPTY_STORE, request);
    ManyInStore(env, n);
  }

  lemma ManyInStore(env: Env, n: nat)
    requires Consistent(env.clock, EMPTY_STORE)
    ensures AllIssued(env, BatchIssue(env.clock, EMPTY_STORE, Copies(n)).0.events, n)
  {
    hide BatchAccepted, NewAttempts, Consistent;
    BatchIssueAccepted(env.clock, EMPTY_STORE, Copies(n));
  }

  lemma LastIssued(env: Env, s: Store, n: nat)
    requires n > 0 && AllIssued(env, s.events, n)
    ensures StartsWithIssuance(env, LogOf(s.events, n), n)
  {
    hide LogOf, Outgoing;
    var e := IssuanceEvent(env, n);
    var before := s.events[..n - 1];
    assert s.events == before + [e];
    SingleEvent(e);
    forall i | 0 <= i < |before| ensures before[i].certificateId != n {
      assert before[i] == s.events[i];
    }
    LogOfEmpty(before, n);
    LogOfAppend(before, e, n);
    assert LogOf(before, n) + [e] == [e];
  }

  lemma ThenTransferred(env: Env, n: nat)
    requires OneAttempt(env) && n > 0
    ensures var w := After(env, CutRun(n)[..2]);
            && |w.store.events| == n + 1 && AllIssued(env, w.store.events[..n], n) && w.chain.calls == 0
            && w.store.events[n].certificateId == n && ToSynchronize(w.store.events[n])
            && Extended(EMPTY_STORE, w.store)
  {
    hide LogOf, Extended, Serve, Inv, AllIssued;
    var w, w' := After(env, CutRun(n)[..1]), After(env, CutRun(n)[..2]);
    assert CutRun(n)[..2][..1] == CutRun(n)[..1];
    EveryRun(env, CutRun(n)[..1]);
    ManyIssued(env, n);
    GoesOn(env, w);
    assert w' == Step(env, w, Transferring(n));
    hide After;
    SoundStore(env, w);
    LastIssued(env, w.store, n);
    TransferIsStored(env, w.store, n);
    ServeExtends(env.clock, w.store, OnOne(TransferFive(n)));
    ExtendedTransitive(EMPTY_STORE, w.store, w'.store);
    assert w'.store.events[..n] == w.store.events by { IssuedLength(env, w.store.events, n); }
  }

  lemma SoundStore(env: Env, w: World)
    requires Inv(env, w)
    ensures AllSound(env, w.store) && Consistent(env.clock, w.store)
  {
    hide LogOf, Sound, Consistent;
  }

  lemma IssuedLength(env: Env, events: seq<Event>, n: nat)
    requires AllIssued(env, events, n)
    ensures |events| == n
  {
  }

  lemma FreshStore(env: Env, s: Store)
    requires Proper(env) && Extended(EMPTY_STORE, s)
    ensures forall id :: Count(s.attempts, id) == 0 && !Done(s.attempts, id)
    ensures forall id :: !FailedCertificate(s, env.max, id)
  {
    forall id ensures Count(s.attempts, id) == 0 && !Done(s.attempts, id) {
      assert RowOf(s.attempts, id) == RowOf(EMPTY_STORE.attempts, id);
    }
    assert forall i :: 0 <= i < |s.events| && s.events[i].id in s.attempts ==> Count(s.attempts, s.events[i].id) == 0;
  }

  /** While no event has been attempted, all that go out are selected in their order, up to the limit. */
  lemma FreshSelection(env: Env, s: Store, limit: nat)
    requires Proper(env) && AllSound(env, s) && Extended(EMPTY_STORE, s)
    requires forall i :: 0 <= i < |s.events| ==> ToSynchronize(s.events[i])
    ensures Select(s, env.max, limit) == FirstOf(s.events, limit)
  {
    hide LogOf, Sound, ModelsAgree, Eligible, SortByTime, FailedCertificate, Extended;
    FreshStore(env, s);
    forall i | 0 <= i < |s.events| ensures Selectable(s, env.max, s.events[i]) {
      assert Count(s.attempts, s.events[i].id) == 0;
    }
    AllEligible(s, env.max, s.events);
    LogIsSorted(env.clock, s);
    SortOfSorted(s.events);
  }

  lemma {:induction false} AllEligible(s: Store, max: nat, events: seq<Event>)
    requires forall i :: 0 <= i < |events| ==> Selectable(s, max, events[i])
    ensures Eligible(s, max, events) == events
  {
    hide Selectable;
    if events != [] {
      AllEligible(s, max, events[..|events| - 1]);
    }
  }

  /**
   * With one attempt allowed and everything accepted, a certificate that had not failed never becomes
   * synchronised if the limit of a pass takes its issuance and leaves its transfer; a limit of 500 is the job's.
   */
  lemma FailedByLimit(env: Env, n: nat, more: seq<Action>)
    requires OneAttempt(env) && n > 0
    ensures !FailedCertificate(After(env, CutRun(n)[..2]).store, env.max, n)
    ensures var s := After(env, CutRun(n) + more).store; n in s.models && !s.models[n].isSynced
  {
    hide LogOf, Select, Pass, FailedCertificate, AllSound, ChainAgrees, HistoryFits, Quiet, Accepting, Extended,
         AllIssued;
    var w, w' := After(env, CutRun(n)[..2]), After(env, CutRun(n));
    EveryRun(env, CutRun(n)[..2]);
    ThenTransferred(env, n);
    GoesOn(env, w);
    assert w' == Step(env, w, Run(n));
    hide After, CutRun;
    FreshStore(env, w.store);
    CutInTwo(env, w, n);
    NeverSynchronised(env, CutRun(n), more, n);
  }

  lemma CutInTwo(env: Env, w: World, n: nat)
    requires OneAttempt(env) && n > 0 && Inv(env, w) && Serene(env, w.chain.calls)
    requires |w.store.events| == n + 1 && AllIssued(env, w.store.events[..n], n)
    requires w.store.events[n].certificateId == n && ToSynchronize(w.store.events[n]) && Extended(EMPTY_STORE, w.store)
    ensures FailedCertificate(Pass(env, w, n).store, env.max, n) && !InFull(Pass(env, w, n), n)
  {
    hide LogOf, Select, Pass, FailedCertificate, Sound, ChainAgrees, HistoryFits, ModelsAgree, HasAttempts, Extended,
         InFull;
    var s, t := w.store, w.store.events[n];
    assert forall i :: 0 <= i < n ==> s.events[i] == s.events[..n][i];
    FreshStore(env, s);
    FreshSelection(env, s, n);
    var selected := Select(s, env.max, n);
    assert selected == s.events[..n];
    assert selected[n - 1] in selected && selected[n - 1].certificateId == n;
    CutOff(env, w, n, t);
    FailedExactly(env, w, n, n);
  }

  /** An undone event that a pass leaves out keeps its certificate from being accepted in full. */
  lemma CutOff(env: Env, w: World, limit: nat, e: Event)
    requires Proper(env) && Inv(env, w) && Serene(env, w.chain.calls)
    requires StoredAt(w.store.events, e) && ToSynchronize(e) && !Done(w.store.attempts, e.id)
    requires e !in Select(w.store, env.max, limit)
    ensures !InFull(Pass(env, w, limit), e.certificateId)
  {
    hide LogOf, Select, Pass, Sound, ChainAgrees, HistoryFits, InFull, Quiet, Accepting;
    StoredLog(env.clock, w.store, e.certificateId);
    PassExactly(env, w, limit, e.certificateId);
  }
}
