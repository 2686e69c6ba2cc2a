/** The calls to the blockchain and its answers: what is sent under which blockchain id, and what is recorded of it. */
module SyncHistory {
  import opened Wrappers
  import opened CertificateEvents
  import opened CertificateStore
  import opened CertificateRequests
  import opened SyncProtocol

  /** A success on record: whose, and what is recorded of it. */
  datatype Receipt = Receipt(certificateId: CertId, record: Payload)

  /** The successes that some events record. */
  function OnRecord(events: seq<Event>): seq<Receipt> {
    if events == [] then []
    else
      var n := |events| - 1;
      OnRecord(events[..n])
      + if RecordsSuccess(events[n]) then [Receipt(events[n].certificateId, events[n].payload)] else []
  }

  /**
   * What is to be recorded of the k-th event of an accepted block: its id, the call's hash, and the
   * k-th id returned.
   */
  function ReceiptOf(m: Moment, e: Event, k: nat): Receipt {
    Receipt(e.certificateId,
            if e.payload.Issued? then IssuancePersisted(m.blockchainIds(k), e.id, m.transactionHash)
            else if e.payload.Transferred? then TransferPersisted(e.id, m.transactionHash)
            else ClaimPersisted(e.id, m.transactionHash))
  }

  function ReceiptsFrom(m: Moment, events: seq<Event>, k: nat): seq<Receipt>
    decreases |events| - k
  {
    if k >= |events| then [] else [ReceiptOf(m, events[k], k)] + ReceiptsFrom(m, events, k + 1)
  }

  /** The receipts of all accepted calls; the n-th call was answered by the n-th moment of the script. */
  function Receipts(env: Env, history: seq<Call>): seq<Receipt> {
    if history == [] then []
    else
      var n := |history| - 1;
      Receipts(env, history[..n])
      + if env.script(n).accepted then ReceiptsFrom(env.script(n), history[n].events, 0) else []
  }

  function AcceptedIn(env: Env, history: seq<Call>): seq<Event> {
    if history == [] then []
    else
      var n := |history| - 1;
      AcceptedIn(env, history[..n]) + if env.script(n).accepted then history[n].events else []
  }

  /** The blockchain returned an id for the certificate's issuance, as the k-th of the j-th call. */
  ghost predicate IssuedAt(env: Env, history: seq<Call>, id: CertId, blockchainId: int, j: int, k: int) {
    && 0 <= j < |history| && env.script(j).accepted && history[j].kind.Issuances?
    && 0 <= k < |history[j].events| && history[j].events[k].certificateId == id
    && env.script(j).blockchainIds(k) == blockchainId
  }

  ghost predicate IssuedAs(env: Env, history: seq<Call>, id: CertId, blockchainId: int) {
    exists j, k :: IssuedAt(env, history, id, blockchainId, j, k)
  }

  /** Every id in the map was returned by the blockchain for the issuance of that certificate. */
  ghost predicate MapFits(env: Env, history: seq<Call>, idMap: map<CertId, int>) {
    forall id :: id in idMap ==> IssuedAs(env, history, id, idMap[id])
  }

  /** The events of a call are of its kind, and all but issuances go out under the ids returned for their issuances. */
  ghost predicate CallFits(env: Env, history: seq<Call>, call: Call) {
    && |call.targets| == |call.events|
    && forall k :: 0 <= k < |call.events| ==>
         && OfKind(call.kind, call.events[k])
         && (call.kind.Issuances? ==> call.targets[k] == None)
         && (!call.kind.Issuances? ==>
               call.targets[k].Some? && IssuedAs(env, history, call.events[k].certificateId, call.targets[k].value))
  }

  ghost predicate CallsFit(env: Env, history: seq<Call>) {
    forall i :: 0 <= i < |history| ==> CallFits(env, history[..i], history[i])
  }

  /** What is on record, and what was accepted, is what the calls and their answers make it. */
  ghost predicate HistoryFits(env: Env, w: World) {
    && |w.chain.history| == w.chain.calls
    && CallsFit(env, w.chain.history)
    && w.chain.accepted == AcceptedIn(env, w.chain.history)
    && OnRecord(w.store.events) == Receipts(env, w.chain.history)
  }

  // ----- requests and errors put no success on record

  lemma RecordedAppend(events: seq<Event>, e: Event)
    ensures OnRecord(events + [e]) ==
            if RecordsSuccess(e) then OnRecord(events) + [Receipt(e.certificateId, e.payload)] else OnRecord(events)
  {
    assert (events + [e])[..|events|] == events;
    assert OnRecord(events) + [] == OnRecord(events);
  }

  lemma {:induction false} NothingRecorded(events: seq<Event>, es: seq<Event>)
    requires forall i :: 0 <= i < |es| ==> !RecordsSuccess(es[i])
    ensures OnRecord(events + es) == OnRecord(events)
  {
    hide OnRecord;
    if es == [] {
      assert events + es == events;
    } else {
      var n := |es| - 1;
      NothingRecorded(events, es[..n]);
      RecordedAppend(events + es[..n], es[n]);
      assert events + es == events + es[..n] + [es[n]];
    }
  }

  lemma ServeRecordsNothing(clock: Clock, s: Store, r: Request)
    requires LogInOrder(clock, s)
    ensures OnRecord(Serve(clock, s, r).events) == OnRecord(s.events)
  {
    hide Serve, Acceptable, OnRecord;
    ServeAnswers(clock, s, r);
    var es :| Answered(clock, s, r, Serve(clock, s, r), es);
    NothingRecorded(s.events, es);
  }

  lemma PersistRecords(clock: Clock, s: Store, id: CertId, payload: Payload)
    ensures var r := Persist(clock, s, id, payload);
            && (r.1 == None && RecordsSuccess(NewEvent(clock, s, id, payload)) ==>
                  OnRecord(r.0.events) == OnRecord(s.events) + [Receipt(id, payload)])
            && (payload.PersistError? ==> OnRecord(r.0.events) == OnRecord(s.events))
  {
    hide Aggregate, OnRecord;
    RecordedAppend(s.events, NewEvent(clock, s, id, payload));
  }

  lemma {:induction false} RecordErrorsRecord(clock: Clock, s: Store, events: seq<Event>, i: nat)
    ensures OnRecord(RecordErrors(clock, s, events, i).0.events) == OnRecord(s.events)
    decreases |events| - i
  {
    hide Persist, OnRecord;
    if i < |events| {
      var payload := PersistError(events[i].id);
      PersistRecords(clock, s, events[i].certificateId, payload);
      RecordErrorsRecord(clock, Persist(clock, s, events[i].certificateId, payload).0, events, i + 1);
    }
  }

  /** If no record is refused, exactly the receipts of the block are put on record. */
  lemma {:induction false} RecordSuccessesRecord(clock: Clock, kind: Kind, m: Moment, s: Store, events: seq<Event>,
                                                 i: nat)
    requires RecordSuccesses(clock, kind, m, s, events, i).1
    requires forall k :: 0 <= k < |events| ==> OfKind(kind, events[k])
    ensures OnRecord(RecordSuccesses(clock, kind, m, s, events, i).0.events) ==
            OnRecord(s.events) + ReceiptsFrom(m, events, i)
    decreases |events| - i
  {
    hide Persist, OnRecord;
    if i < |events| {
      var id, payload := events[i].certificateId, SuccessPayload(kind, m, i, events[i]);
      assert OfKind(kind, events[i]);
      assert ReceiptOf(m, events[i], i) == Receipt(id, payload);
      PersistRecords(clock, s, id, payload);
      var one := Persist(clock, s, id, payload).0;
      RecordSuccessesRecord(clock, kind, m, one, events, i + 1);
      assert OnRecord(s.events) + [Receipt(id, payload)] + ReceiptsFrom(m, events, i + 1)
          == OnRecord(s.events) + ReceiptsFrom(m, events, i);
    }
  }

  // ----- one call

  lemma HistoryAppend(env: Env, history: seq<Call>, call: Call)
    ensures var m := env.script(|history|);
            && Receipts(env, history + [call]) ==
               Receipts(env, history) + (if m.accepted then ReceiptsFrom(m, call.events, 0) else [])
            && AcceptedIn(env, history + [call]) == AcceptedIn(env, history) + (if m.accepted then call.events else [])
  {
    assert (history + [call])[..|history|] == history;
  }

  lemma CallsAppend(env: Env, history: seq<Call>, call: Call)
    requires CallsFit(env, history) && CallFits(env, history, call)
    ensures CallsFit(env, history + [call])
  {
    hide CallFits;
    var longer := history + [call];
    forall i | 0 <= i < |longer| ensures CallFits(env, longer[..i], longer[i]) {
      assert i < |history| ==> longer[..i] == history[..i];
      assert longer[..|history|] == history;
    }
  }

  /** An id that was returned stays so. */
  lemma IssuedLater(env: Env, history: seq<Call>, more: seq<Call>, id: CertId, blockchainId: int)
    requires IssuedAs(env, history, id, blockchainId) && history <= more
    ensures IssuedAs(env, more, id, blockchainId)
  {
    var j, k :| IssuedAt(env, history, id, blockchainId, j, k);
    assert IssuedAt(env, more, id, blockchainId, j, k);
  }

  /** What is sent goes out under fitting ids. */
  ghost predicate SentUnder(env: Env, kind: Kind, idMap: map<CertId, int>, w: World, events: seq<Event>) {
    if kind.Issuances? then idMap == map[]
    else MapFits(env, w.chain.history, idMap) && forall k :: 0 <= k < |events| ==> events[k].certificateId in idMap
  }

  lemma SentCallFits(env: Env, kind: Kind, idMap: map<CertId, int>, w: World, events: seq<Event>)
    requires SentUnder(env, kind, idMap, w, events) && forall k :: 0 <= k < |events| ==> OfKind(kind, events[k])
    ensures CallFits(env, w.chain.history, Call(kind, events, TargetsIn(idMap, events)))
  {
    hide IssuedAs, OfKind;
  }

  lemma {:induction false} ArrivalsRecordNothing(clock: Clock, s: Store, requests: seq<Request>)
    requires forall k :: 0 <= k <= |requests| ==> LogInOrder(clock, ServeAll(clock, s, requests[..k]))
    ensures OnRecord(ServeAll(clock, s, requests).events) == OnRecord(s.events)
  {
    hide Serve, LogInOrder, OnRecord;
    if requests != [] {
      var n := |requests| - 1;
      forall k | 0 <= k <= n ensures LogInOrder(clock, ServeAll(clock, s, requests[..n][..k])) {
        assert requests[..n][..k] == requests[..k];
      }
      ArrivalsRecordNothing(clock, s, requests[..n]);
      ServeRecordsNothing(clock, ServeAll(clock, s, requests[..n]), requests[n]);
    }
  }

  /** A call that is recorded without a refusal keeps the history fitting. */
  lemma SendBlockFits(env: Env, kind: Kind, idMap: map<CertId, int>, w: World, events: seq<Event>)
    requires HistoryFits(env, w) && SentUnder(env, kind, idMap, w, events)
    requires forall k :: 0 <= k < |events| ==> OfKind(kind, events[k])
    requires var m := env.script(w.chain.calls);
             && OnRecord(ServeAll(env.clock, w.store, m.arrivals).events) == OnRecord(w.store.events)
             && (m.accepted ==>
                   RecordSuccesses(env.clock, kind, m, ServeAll(env.clock, w.store, m.arrivals), events, 0).1)
    ensures HistoryFits(env, SendBlock(env, kind, idMap, w, events).0)
  {
    hide OnRecord, Receipts, ReceiptsFrom, AcceptedIn, ServeAll, RecordSuccesses, RecordErrors, CallsFit, CallFits,
         SentUnder, OfKind;
    var m := env.script(w.chain.calls);
    var arrived := ServeAll(env.clock, w.store, m.arrivals);
    var call := Call(kind, events, TargetsIn(idMap, events));
    SentCallFits(env, kind, idMap, w, events);
    CallsAppend(env, w.chain.history, call);
    HistoryAppend(env, w.chain.history, call);
    if m.accepted {
      RecordSuccessesRecord(env.clock, kind, m, arrived, events, 0);
    } else {
      RecordErrorsRecord(env.clock, arrived, events, 0);
      assert Receipts(env, w.chain.history) + [] == Receipts(env, w.chain.history);
      assert AcceptedIn(env, w.chain.history) + [] == AcceptedIn(env, w.chain.history);
    }
  }

  // ----- the ids that are looked up

  /** A receipt stands for an event of an accepted call. */
  ghost predicate ReceiptAt(env: Env, history: seq<Call>, r: Receipt, j: int, k: int) {
    && 0 <= j < |history| && env.script(j).accepted && 0 <= k < |history[j].events|
    && r == ReceiptOf(env.script(j), history[j].events[k], k)
  }

  lemma {:induction false} ReceiptsInBlock(m: Moment, events: seq<Event>, i: nat, r: Receipt)
    ensures r in ReceiptsFrom(m, events, i) <==> exists k :: i <= k < |events| && r == ReceiptOf(m, events[k], k)
    decreases |events| - i
  {
    if i < |events| {
      ReceiptsInBlock(m, events, i + 1, r);
    }
  }

  lemma {:induction false} ReceiptsAreOfCalls(env: Env, history: seq<Call>, r: Receipt)
    ensures r in Receipts(env, history) <==> exists j, k :: ReceiptAt(env, history, r, j, k)
  {
    if history != [] {
      var n := |history| - 1;
      ReceiptsAreOfCalls(env, history[..n], r);
      ReceiptsInBlock(env.script(n), history[n].events, 0, r);
      hide Receipts, ReceiptsFrom, ReceiptOf;
      if j, k :| ReceiptAt(env, history[..n], r, j, k) {
        assert ReceiptAt(env, history, r, j, k);
      }
      if j, k :| ReceiptAt(env, history, r, j, k) {
        assert j < n ==> ReceiptAt(env, history[..n], r, j, k);
      }
      if env.script(n).accepted {
        if k :| 0 <= k < |history[n].events| && r == ReceiptOf(env.script(n), history[n].events[k], k) {
          assert ReceiptAt(env, history, r, n, k);
        }
      }
      ReceiptsLast(env, history, r);
    }
  }

  lemma ReceiptsLast(env: Env, history: seq<Call>, r: Receipt)
    requires history != []
    ensures var n := |history| - 1;
            r in Receipts(env, history) <==>
            r in Receipts(env, history[..n])
            || (env.script(n).accepted && r in ReceiptsFrom(env.script(n), history[n].events, 0))
  {
  }

  lemma {:induction false} RecordedMembers(events: seq<Event>, r: Receipt)
    ensures r in OnRecord(events) <==>
            exists i :: 0 <= i < |events| && RecordsSuccess(events[i])
                        && r == Receipt(events[i].certificateId, events[i].payload)
  {
    if events != [] {
      RecordedMembers(events[..|events| - 1], r);
    }
  }

  /** A blockchain id that is looked up stands in a record of that certificate's issuance. */
  lemma {:induction false} IdIsRecorded(events: seq<Event>, ids: set<CertId>, id: CertId)
    requires id in BlockchainIds(events, ids)
    ensures exists i :: 0 <= i < |events| && events[i].certificateId == id && events[i].payload.IssuancePersisted?
                        && events[i].payload.blockchainCertificateId == BlockchainIds(events, ids)[id]
  {
    var n := |events| - 1;
    if !(events[n].payload.IssuancePersisted? && events[n].certificateId == id && id in ids) {
      IdIsRecorded(events[..n], ids, id);
    }
  }

  /** A record of an issuance holds an id that the blockchain returned for it. */
  lemma RecordedIsReturned(env: Env, w: World, i: nat)
    requires HistoryFits(env, w) && i < |w.store.events| && w.store.events[i].payload.IssuancePersisted?
    ensures IssuedAs(env, w.chain.history, w.store.events[i].certificateId,
                     w.store.events[i].payload.blockchainCertificateId)
  {
    hide OnRecord, Receipts, AcceptedIn;
    var e := w.store.events[i];
    var r := Receipt(e.certificateId, e.payload);
    RecordedMembers(w.store.events, r);
    ReceiptsAreOfCalls(env, w.chain.history, r);
    var j, k :| ReceiptAt(env, w.chain.history, r, j, k);
    assert CallFits(env, w.chain.history[..j], w.chain.history[j]);
    assert OfKind(w.chain.history[j].kind, w.chain.history[j].events[k]);
    assert IssuedAt(env, w.chain.history, e.certificateId, e.payload.blockchainCertificateId, j, k);
  }

  /** The ids that are looked up before a phase are ids that the blockchain returned. */
  lemma LookedUpFits(env: Env, w: World, ids: set<CertId>)
    requires HistoryFits(env, w)
    ensures MapFits(env, w.chain.history, BlockchainIds(w.store.events, ids))
  {
    hide HistoryFits, IssuedAs, BlockchainIds;
    var idMap := BlockchainIds(w.store.events, ids);
    forall id | id in idMap ensures IssuedAs(env, w.chain.history, id, idMap[id]) {
      IdIsRecorded(w.store.events, ids, id);
      var i :| 0 <= i < |w.store.events| && w.store.events[i].certificateId == id
               && w.store.events[i].payload.IssuancePersisted?
               && w.store.events[i].payload.blockchainCertificateId == idMap[id];
      RecordedIsReturned(env, w, i);
    }
  }
}
