/** Over every run, what is on record of each accepted event, and under which blockchain id each certificate goes. */
module SyncRecords {
  import opened Wrappers
  import opened CertificateEvents
  import opened CertificateAggregate
  import opened CertificateLedger
  import opened CertificateStore
  import opened CertificateStoreFacts
  import opened SyncProtocol
  import opened SyncHistory
  import opened SyncLog
  import opened SyncStore
  import opened SyncBlock
  import opened SyncPass
  import opened SyncRun

  /** The records of success are exactly the receipts of the accepted calls, in their order. */
  lemma RecordsAreReceipts(env: Env, actions: seq<Action>)
    requires Proper(env)
    ensures var w := After(env, actions); OnRecord(w.store.events) == Receipts(env, w.chain.history)
  {
    hide After, OnRecord, Receipts;
    EveryRun(env, actions);
  }

  // ----- receipts and accepted events go in pairs

  ghost predicate Paired(r: Receipt, e: Event) {
    r.certificateId == e.certificateId && (r.record.IssuancePersisted? ==> e.payload.Issued?)
  }

  ghost predicate AllPaired(receipts: seq<Receipt>, events: seq<Event>) {
    |receipts| == |events| && forall p :: 0 <= p < |events| ==> Paired(receipts[p], events[p])
  }

  lemma {:induction false} BlockPaired(m: Moment, events: seq<Event>, i: nat)
    requires i <= |events|
    ensures AllPaired(ReceiptsFrom(m, events, i), events[i..])
    decreases |events| - i
  {
    if i < |events| {
      BlockPaired(m, events, i + 1);
      assert events[i..] == [events[i]] + events[i + 1..];
    }
  }

  lemma {:induction false} HistoryPaired(env: Env, history: seq<Call>)
    ensures AllPaired(Receipts(env, history), AcceptedIn(env, history))
  {
    if history != [] {
      var n := |history| - 1;
      HistoryPaired(env, history[..n]);
      BlockPaired(env.script(n), history[n].events, 0);
      assert history[n].events[0..] == history[n].events;
      hide ReceiptsFrom;
    }
  }

  lemma PrefixIncreases(a: seq<Event>, b: seq<Event>)
    requires a <= b && Increasing(b)
    ensures Increasing(a) && forall e :: e in a ==> e in b
  {
    assert forall i :: 0 <= i < |a| ==> a[i] == b[i];
  }

  lemma {:induction false} LaterInLog(events: seq<Event>, id: CertId, p: nat, q: nat)
    requires Increasing(LogOf(events, id)) && p < q < |events|
    requires events[p].certificateId == id && events[q].certificateId == id
    ensures events[p].id < events[q].id
    ensures events[p] in LogOf(events, id) && events[q] in LogOf(events, id)
  {
    var n := |events| - 1;
    PrefixIncreases(LogOf(events[..n], id), LogOf(events, id));
    if q < n {
      LaterInLog(events[..n], id, p, q);
    } else {
      InLog(events[..n], id, p);
      var log := LogOf(events[..n], id);
      var k :| 0 <= k < |log| && log[k] == events[p];
      assert LogOf(events, id) == log + [events[n]];
      assert LogOf(events, id)[k].id < LogOf(events, id)[|log|].id;
    }
  }

  lemma {:induction false} InLog(events: seq<Event>, id: CertId, p: nat)
    requires p < |events| && events[p].certificateId == id
    ensures events[p] in LogOf(events, id)
  {
    if p < |events| - 1 {
      InLog(events[..|events| - 1], id, p);
    }
  }

  /** The blockchain accepts the issuance of a certificate once. */
  lemma AcceptedOnce(env: Env, w: World, p: nat, q: nat)
    requires Inv(env, w) && p < q < |w.chain.accepted|
    requires w.chain.accepted[p].certificateId == w.chain.accepted[q].certificateId
    ensures !(w.chain.accepted[p].payload.Issued? && w.chain.accepted[q].payload.Issued?)
  {
    hide LogOf, Delivered, Outgoing, HistoryFits, Consistent, HasRows, Bounded, Identified, ToPersist, Owed;
    var id := w.chain.accepted[p].certificateId;
    var log := LogOf(w.store.events, id);
    assert Sound(env.max, w.store.attempts, log);
    DeliveredIsPrefix(w.store.attempts, log);
    OutgoingFacts(log);
    assert LogOf(w.chain.accepted, id) <= Outgoing(log);
    PrefixIncreases(LogOf(w.chain.accepted, id), Outgoing(log));
    LaterInLog(w.chain.accepted, id, p, q);
    AcceptedInLog(env, w, id, w.chain.accepted[p]);
    AcceptedInLog(env, w, id, w.chain.accepted[q]);
  }

  /** An accepted issuance is the first event of its log. */
  lemma AcceptedInLog(env: Env, w: World, id: CertId, e: Event)
    requires Inv(env, w) && e in Outgoing(LogOf(w.store.events, id))
    ensures e.payload.Issued? ==> LogOf(w.store.events, id) != [] && e == LogOf(w.store.events, id)[0]
  {
    hide LogOf, Outgoing, HistoryFits, ChainAgrees, Consistent, HasRows, Bounded, Identified, ToPersist, Owed, InOrder;
    var log := LogOf(w.store.events, id);
    assert Sound(env.max, w.store.attempts, log);
    OutgoingFacts(log);
    StoredLogFolds(env.clock, w.store, id);
  }

  /** There are no two different records of a certificate's issuance. */
  lemma OneIssuanceRecord(env: Env, w: World, r: Receipt, r': Receipt)
    requires Inv(env, w) && r in OnRecord(w.store.events) && r' in OnRecord(w.store.events)
    requires r.certificateId == r'.certificateId && r.record.IssuancePersisted? && r'.record.IssuancePersisted?
    ensures r == r'
  {
    hide OnRecord, Receipts, AcceptedIn, AllSound, ChainAgrees, CallsFit;
    var receipts, accepted := OnRecord(w.store.events), w.chain.accepted;
    HistoryPaired(env, w.chain.history);
    var p :| 0 <= p < |receipts| && receipts[p] == r;
    var q :| 0 <= q < |receipts| && receipts[q] == r';
    assert Paired(r, accepted[p]) && Paired(r', accepted[q]);
    if p < q {
      AcceptedOnce(env, w, p, q);
    } else if q < p {
      AcceptedOnce(env, w, q, p);
    }
  }

  // ----- what an accepted call leaves behind

  /** The k-th event of the j-th call, which was accepted. */
  ghost predicate AcceptedAt(env: Env, w: World, j: int, k: int) {
    && 0 <= j < |w.chain.history| && env.script(j).accepted && 0 <= k < |w.chain.history[j].events|
  }

  ghost predicate HasRecord(s: Store, id: CertId, record: Payload) {
    exists i :: 0 <= i < |s.events| && s.events[i].certificateId == id && s.events[i].payload == record
  }

  lemma ReceiptIsStored(env: Env, w: World, j: int, k: int)
    requires Inv(env, w) && AcceptedAt(env, w, j, k)
    ensures var e, m := w.chain.history[j].events[k], env.script(j);
            && ReceiptOf(m, e, k) in OnRecord(w.store.events)
            && HasRecord(w.store, e.certificateId, ReceiptOf(m, e, k).record)
  {
    hide OnRecord, Receipts, AcceptedIn, AllSound, ChainAgrees, CallsFit, ReceiptOf;
    var r := ReceiptOf(env.script(j), w.chain.history[j].events[k], k);
    assert ReceiptAt(env, w.chain.history, r, j, k);
    ReceiptsAreOfCalls(env, w.chain.history, r);
    RecordedMembers(w.store.events, r);
    ReceiptsOwner(env.script(j), w.chain.history[j].events[k], k);
  }

  lemma ReceiptsOwner(m: Moment, e: Event, k: nat)
    ensures ReceiptOf(m, e, k).certificateId == e.certificateId
  {
  }

  /**
   * Of the k-th event of every accepted call it is on record that it succeeded, under the call's hash; of an
   * issuance also the k-th id that the blockchain returned.
   */
  lemma SuccessIsOnRecord(env: Env, actions: seq<Action>, j: int, k: int)
    requires Proper(env) && AcceptedAt(env, After(env, actions), j, k)
    ensures var w, m := After(env, actions), env.script(j);
            var e := w.chain.history[j].events[k];
            match w.chain.history[j].kind
            case Issuances =>
              HasRecord(w.store, e.certificateId, IssuancePersisted(m.blockchainIds(k), e.id, m.transactionHash))
            case Transfers => HasRecord(w.store, e.certificateId, TransferPersisted(e.id, m.transactionHash))
            case Claims => HasRecord(w.store, e.certificateId, ClaimPersisted(e.id, m.transactionHash))
  {
    hide After, OnRecord, Receipts, AcceptedIn, AllSound, ChainAgrees, HasRecord;
    var w := After(env, actions);
    EveryRun(env, actions);
    ReceiptIsStored(env, w, j, k);
    assert CallFits(env, w.chain.history[..j], w.chain.history[j]);
    assert OfKind(w.chain.history[j].kind, w.chain.history[j].events[k]);
  }

  lemma {:induction false} LastIssuanceExists(log: seq<Event>, k: nat)
    requires k < |log| && log[k].payload.IssuancePersisted?
    ensures exists j :: LastIssuanceRecord(log, j)
    decreases |log| - k
  {
    if j :| k < j < |log| && log[j].payload.IssuancePersisted? {
      LastIssuanceExists(log, j);
    } else {
      assert LastIssuanceRecord(log, k);
    }
  }

  /** If all records of an issuance in a log agree, the read model has their blockchain id. */
  lemma FoldHasId(log: seq<Event>, c: Certificate, k: nat)
    requires Sorted(log) && FromEvents(log) == Ok(c) && k < |log| && log[k].payload.IssuancePersisted?
    requires forall j :: 0 <= j < |log| && log[j].payload.IssuancePersisted? ==> log[j].payload == log[k].payload
    ensures c.blockchainCertificateId == Some(log[k].payload.blockchainCertificateId)
  {
    hide FromEvents, ClaimsOf, TransactionsOf;
    ReadModelOfLog(log);
    SortOfSorted(log);
    LastIssuanceExists(log, k);
    var last :| LastIssuanceRecord(log, last);
  }

  /** A certificate whose issuance is on record has the recorded blockchain id. */
  lemma ModelHasRecordedId(env: Env, w: World, i: nat)
    requires Inv(env, w) && i < |w.store.events| && w.store.events[i].payload.IssuancePersisted?
    ensures var r := w.store.events[i];
            && r.certificateId in w.store.models
            && w.store.models[r.certificateId].blockchainCertificateId == Some(r.payload.blockchainCertificateId)
  {
    hide LogOf, FromEvents, Inv;
    var r := w.store.events[i];
    var log := LogOf(w.store.events, r.certificateId);
    ModelOfLog(env, w, i);
    var k :| 0 <= k < |log| && log[k] == r;
    forall j | 0 <= j < |log| && log[j].payload.IssuancePersisted? ensures log[j].payload == r.payload {
      assert log[j] in log;
      SameIssuance(env, w, i, log[j].id - 1);
    }
    FoldHasId(log, w.store.models[r.certificateId], k);
  }

  lemma ModelOfLog(env: Env, w: World, i: nat)
    requires Inv(env, w) && i < |w.store.events|
    ensures var id := w.store.events[i].certificateId;
            var log := LogOf(w.store.events, id);
            && w.store.events[i] in log && Sorted(log)
            && id in w.store.models && FromEvents(log) == Ok(w.store.models[id])
            && forall e :: e in log ==> StoredAt(w.store.events, e) && e.certificateId == id
  {
    hide LogOf, FromEvents, Sound, ChainAgrees, HistoryFits, HasAttempts;
    var id := w.store.events[i].certificateId;
    StoredLog(env.clock, w.store, id);
    assert StoredAt(w.store.events, w.store.events[i]);
    LogIsSorted(env.clock, w.store);
    LogOfSorted(w.store.events, id);
    assert ModelsAgree(w.store);
  }

  lemma SameIssuance(env: Env, w: World, i: int, j: int)
    requires Inv(env, w) && 0 <= i < |w.store.events| && 0 <= j < |w.store.events|
    requires w.store.events[i].certificateId == w.store.events[j].certificateId
    requires w.store.events[i].payload.IssuancePersisted? && w.store.events[j].payload.IssuancePersisted?
    ensures w.store.events[i].payload == w.store.events[j].payload
  {
    hide OnRecord, Inv;
    var r := Receipt(w.store.events[i].certificateId, w.store.events[i].payload);
    var r' := Receipt(w.store.events[j].certificateId, w.store.events[j].payload);
    RecordedMembers(w.store.events, r);
    RecordedMembers(w.store.events, r');
    OneIssuanceRecord(env, w, r, r');
  }

  /**
   * The certificate of the k-th event of an accepted issuance call goes by the k-th id that the blockchain
   * returned for that call, in its read model and wherever its id is looked up.
   */
  lemma IssuedIdIsKept(env: Env, actions: seq<Action>, j: int, k: int)
    requires Proper(env) && AcceptedAt(env, After(env, actions), j, k)
    requires After(env, actions).chain.history[j].kind.Issuances?
    ensures var w := After(env, actions);
            var id, returned := w.chain.history[j].events[k].certificateId, env.script(j).blockchainIds(k);
            && id in w.store.models && w.store.models[id].blockchainCertificateId == Some(returned)
            && forall ids :: id in ids ==>
                 id in BlockchainIds(w.store.events, ids) && BlockchainIds(w.store.events, ids)[id] == returned
  {
    hide After, Inv, BlockchainIds, HasBlockchainId;
    var w := After(env, actions);
    var id, returned := w.chain.history[j].events[k].certificateId, env.script(j).blockchainIds(k);
    EveryRun(env, actions);
    SuccessIsOnRecord(env, actions, j, k);
    var i :| 0 <= i < |w.store.events| && w.store.events[i].certificateId == id
             && w.store.events[i].payload.IssuancePersisted?
             && w.store.events[i].payload.blockchainCertificateId == returned;
    ModelHasRecordedId(env, w, i);
    forall ids | id in ids
      ensures id in BlockchainIds(w.store.events, ids) && BlockchainIds(w.store.events, ids)[id] == returned
    {
      LookedUp(env, w, ids, i);
    }
  }

  lemma LookedUp(env: Env, w: World, ids: set<CertId>, i: nat)
    requires Inv(env, w) && i < |w.store.events| && w.store.events[i].payload.IssuancePersisted?
    requires w.store.events[i].certificateId in ids
    ensures var r := w.store.events[i];
            && r.certificateId in BlockchainIds(w.store.events, ids)
            && BlockchainIds(w.store.events, ids)[r.certificateId] == r.payload.blockchainCertificateId
  {
    hide Inv, BlockchainIds;
    var id := w.store.events[i].certificateId;
    InIdMap(w.store.events, ids, id);
    IdIsRecorded(w.store.events, ids, id);
    var n :| 0 <= n < |w.store.events| && w.store.events[n].certificateId == id
             && w.store.events[n].payload.IssuancePersisted?
             && w.store.events[n].payload.blockchainCertificateId == BlockchainIds(w.store.events, ids)[id];
    SameIssuance(env, w, i, n);
  }

  /**
   * Every transfer and every claim goes out, accepted or not, under the id that the blockchain returned for
   * the issuance of its certificate in an earlier call.
   */
  lemma SentUnderReturnedId(env: Env, actions: seq<Action>, n: int, k: int)
    requires Proper(env)
    requires 0 <= n < |After(env, actions).chain.history| && 0 <= k < |After(env, actions).chain.history[n].events|
    requires !After(env, actions).chain.history[n].kind.Issuances?
    ensures var w := After(env, actions);
            var call := w.chain.history[n];
            && |call.targets| == |call.events|
            && (exists j, i :: j < n && AcceptedAt(env, w, j, i) && w.chain.history[j].kind.Issuances?
                  && w.chain.history[j].events[i].certificateId == call.events[k].certificateId
                  && call.targets[k] == Some(env.script(j).blockchainIds(i)))
            && call.events[k].certificateId in w.store.models
            && w.store.models[call.events[k].certificateId].blockchainCertificateId == call.targets[k]
  {
    hide After, OnRecord, Receipts, AcceptedIn, AllSound, ChainAgrees;
    var w := After(env, actions);
    EveryRun(env, actions);
    var call := w.chain.history[n];
    assert CallFits(env, w.chain.history[..n], call);
    var id := call.events[k].certificateId;
    var j, i :| IssuedAt(env, w.chain.history[..n], id, call.targets[k].value, j, i);
    assert AcceptedAt(env, w, j, i) && w.chain.history[..n][j] == w.chain.history[j];
    IssuedIdIsKept(env, actions, j, i);
  }
}
