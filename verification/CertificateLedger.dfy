/** What a certificate's read model says of its events: who holds what, and which events are refused and why. */
module CertificateLedger {
  import opened Sequences
  import opened Wrappers
  import opened CertificateEvents
  import opened CertificateAggregate

  // ----- what an address has received and given away

  function IssuedTo(a: Address): Event -> int {
    (e: Event) => if e.payload.Issued? && e.payload.toAddress == a then e.payload.issued else 0
  }

  function ReceivedBy(a: Address): Event -> int {
    (e: Event) => if e.payload.Transferred? && e.payload.recipient == a then e.payload.transferred else 0
  }

  /** What an address sent to others. */
  function SentBy(a: Address): Event -> int {
    (e: Event) => if e.payload.Transferred? && e.payload.fromAddress == a && e.payload.recipient != a
                  then e.payload.transferred else 0
  }

  function ClaimedFor(a: Address): Event -> int {
    (e: Event) => if e.payload.Claimed? && e.payload.forAddress == a then e.payload.claimed else 0
  }

  /** What an address has left after some events; what it sent to itself it has received and not given away. */
  function Owned(log: seq<Event>, a: Address): int {
    SumOf(IssuedTo(a), log) + SumOf(ReceivedBy(a), log) - SumOf(SentBy(a), log) - SumOf(ClaimedFor(a), log)
  }

  predicate IsPaidTo(e: Event, a: Address) {
    (e.payload.Issued? && e.payload.toAddress == a) || (e.payload.Transferred? && e.payload.recipient == a)
  }

  /** The address was issued or sent something, be it nothing at all. */
  predicate IsKnown(log: seq<Event>, a: Address) {
    exists k :: 0 <= k < |log| && IsPaidTo(log[k], a)
  }

  lemma OwnedStep(log: seq<Event>, e: Event, a: Address)
    ensures Owned(log + [e], a) ==
            Owned(log, a) + IssuedTo(a)(e) + ReceivedBy(a)(e) - SentBy(a)(e) - ClaimedFor(a)(e)
    ensures SumOf(ClaimedFor(a), log + [e]) == SumOf(ClaimedFor(a), log) + ClaimedFor(a)(e)
  {
    SumOfAppend(IssuedTo(a), log, e);
    SumOfAppend(ReceivedBy(a), log, e);
    SumOfAppend(SentBy(a), log, e);
    SumOfAppend(ClaimedFor(a), log, e);
  }

  lemma KnownStep(log: seq<Event>, e: Event, a: Address)
    ensures IsKnown(log + [e], a) <==> IsKnown(log, a) || IsPaidTo(e, a)
  {
    var longer := log + [e];
    if k :| 0 <= k < |log| && IsPaidTo(log[k], a) {
      assert IsPaidTo(longer[k], a);
    }
    assert longer[|log|] == e;
  }

  /** The balances of a certificate are what its events make of them. */
  ghost predicate Balanced(c: Certificate, log: seq<Event>, a: Address) {
    && Balance(c.owners, a) == Owned(log, a)
    && Balance(c.claimers, a) == SumOf(ClaimedFor(a), log)
    && (a in c.owners <==> IsKnown(log, a))
  }

  lemma ApplyBalances(c: Certificate, log: seq<Event>, e: Event)
    requires Apply(c, e).Ok? && forall a :: Balanced(c, log, a)
    ensures forall a :: Balanced(Apply(c, e).value, log + [e], a)
  {
    hide SumOf, IsKnown, Owned;
    forall a ensures Balanced(Apply(c, e).value, log + [e], a) {
      assert Balanced(c, log, a);
      OwnedStep(log, e, a);
      KnownStep(log, e, a);
      if e.payload.Transferred? {
        assert Balanced(c, log, e.payload.fromAddress);
      }
    }
  }

  lemma FirstBalances(e: Event)
    requires e.payload.Issued?
    ensures forall a :: Balanced(CreateCertificate(e), [e], a)
  {
    forall a ensures Balanced(CreateCertificate(e), [e], a) {
      OwnedStep([], e, a);
      KnownStep([], e, a);
      assert [] + [e] == [e];
    }
  }

  lemma {:induction false} FoldBalanced(log: seq<Event>)
    requires Fold(log).Ok?
    ensures forall a :: Balanced(Fold(log).value, log, a)
  {
    hide Apply, Balanced, CreateCertificate;
    var n := |log| - 1;
    if n == 0 {
      FirstBalances(log[0]);
      assert log == [log[0]];
    } else {
      FoldBalanced(log[..n]);
      ApplyBalances(Fold(log[..n]).value, log[..n], log[n]);
      assert log == log[..n] + [log[n]];
    }
  }

  /**
   * Every address of an accepted log holds what was issued and sent to it, less what it sent to others and
   * claimed, and has claimed what its claims add up to. What an address sends to itself counts as received.
   */
  lemma BalancesOfLog(events: seq<Event>, a: Address)
    requires FromEvents(events).Ok?
    ensures var c := FromEvents(events).value;
            && Balance(c.owners, a) == SumOf(IssuedTo(a), events) + SumOf(ReceivedBy(a), events)
                                       - SumOf(SentBy(a), events) - SumOf(ClaimedFor(a), events)
            && Balance(c.claimers, a) == SumOf(ClaimedFor(a), events)
  {
    FoldBalanced(SortByTime(events));
    assert Balanced(Fold(SortByTime(events)).value, SortByTime(events), a);
    SumOfSorted(IssuedTo(a), events);
    SumOfSorted(ReceivedBy(a), events);
    SumOfSorted(SentBy(a), events);
    SumOfSorted(ClaimedFor(a), events);
  }

  // ----- which events are accepted

  ghost predicate Spendable(log: seq<Event>, a: Address, value: int) {
    IsKnown(log, a) && value <= Owned(log, a)
  }

  /** Why an event is refused after some accepted ones. */
  ghost predicate Refused(log: seq<Event>, e: Event, error: AggregateError) {
    match error
    case FirstEventIsNotIssuance => log == [] && !e.payload.Issued?
    case AlreadyIssued => log != [] && e.payload.Issued?
    case TransferFromZeroAddress => log != [] && e.payload.Transferred? && e.payload.fromAddress.Zero?
    case TransferToZeroAddress =>
      log != [] && e.payload.Transferred? && !e.payload.fromAddress.Zero? && e.payload.recipient.Zero?
    case TransferNotEnoughBalance =>
      && log != [] && e.payload.Transferred? && !e.payload.fromAddress.Zero? && !e.payload.recipient.Zero?
      && !Spendable(log, e.payload.fromAddress, e.payload.transferred)
    case ClaimForZeroAddress => log != [] && e.payload.Claimed? && e.payload.forAddress.Zero?
    case ClaimNotEnoughBalance =>
      && log != [] && e.payload.Claimed? && !e.payload.forAddress.Zero?
      && !Spendable(log, e.payload.forAddress, e.payload.claimed)
    case NoEvents => false
    case TooManyPersisted => false
  }

  /** After an accepted log, an event is refused exactly for the reason that its sums give. */
  lemma RefusedExactly(log: seq<Event>, e: Event, error: AggregateError)
    requires log == [] || Fold(log).Ok?
    ensures Fold(log + [e]) == Err(error) <==> Refused(log, e, error)
  {
    hide SumOf, Owned, IsKnown;
    assert (log + [e])[..|log|] == log;
    if log != [] {
      FoldBalanced(log);
      if e.payload.Transferred? {
        assert Balanced(Fold(log).value, log, e.payload.fromAddress);
      } else if e.payload.Claimed? {
        assert Balanced(Fold(log).value, log, e.payload.forAddress);
      }
    }
  }

  ghost predicate RefusedAfter(log: seq<Event>, e: Event) {
    exists error :: Refused(log, e, error)
  }

  lemma RefusedAtLast(log: seq<Event>, e: Event)
    requires log == [] || Fold(log).Ok?
    ensures Fold(log + [e]).Ok? <==> !RefusedAfter(log, e)
  {
    hide Fold, Refused;
    forall error ensures Fold(log + [e]) == Err(error) <==> Refused(log, e, error) { RefusedExactly(log, e, error); }
    if Fold(log + [e]).Err? {
      assert Refused(log, e, Fold(log + [e]).error);
    }
  }

  lemma FoldOfLonger(log: seq<Event>, e: Event)
    requires log != [] && Fold(log).Err?
    ensures Fold(log + [e]).Err?
  {
    assert (log + [e])[..|log|] == log;
  }

  /** A log is accepted exactly when no event is refused after those before it. */
  lemma {:induction false} AcceptedExactly(log: seq<Event>)
    requires log != []
    ensures Fold(log).Ok? <==> forall n :: 0 <= n < |log| ==> !RefusedAfter(log[..n], log[n])
  {
    hide Fold, RefusedAfter;
    var n := |log| - 1;
    assert log == log[..n] + [log[n]];
    if n > 0 {
      AcceptedExactly(log[..n]);
      forall k | 0 <= k < n ensures log[..n][..k] == log[..k] && log[..n][k] == log[k] { }
    }
    if n == 0 || Fold(log[..n]).Ok? {
      RefusedAtLast(log[..n], log[n]);
    } else {
      FoldOfLonger(log[..n], log[n]);
    }
  }

  /** The error of a refused log is that of the first event that is refused. */
  lemma {:induction false} FirstRefusal(log: seq<Event>, n: nat, error: AggregateError)
    requires n < |log| && Refused(log[..n], log[n], error) && (n == 0 || Fold(log[..n]).Ok?)
    ensures Fold(log) == Err(error)
  {
    hide Refused;
    if n == |log| - 1 {
      RefusedExactly(log[..n], log[n], error);
      assert log == log[..n] + [log[n]];
    } else {
      var shorter := log[..|log| - 1];
      assert shorter[..n] == log[..n];
      FirstRefusal(shorter, n, error);
    }
  }

  // ----- the rest of the read model

  /** The claims that the events of a log amount to, in their order. */
  function ClaimsOf(log: seq<Event>): seq<Claim> {
    if log == [] then []
    else
      var n := |log| - 1;
      ClaimsOf(log[..n])
      + if log[n].payload.Claimed? then [Claim(log[n].payload.forAddress, log[n].payload.claimed)] else []
  }

  /** The transaction that a record of success tells of. */
  function TransactionIn(e: Event): seq<Transaction> {
    match e.payload
    case IssuancePersisted(_, _, hash) => [Transaction(IssuanceTransaction, e.createdAt, hash)]
    case TransferPersisted(_, hash) => [Transaction(TransferTransaction, e.createdAt, hash)]
    case ClaimPersisted(_, hash) => [Transaction(ClaimTransaction, e.createdAt, hash)]
    case _ => []
  }

  /** The transactions that a log tells of, in their order. */
  function TransactionsOf(log: seq<Event>): seq<Transaction> {
    if log == [] then [] else TransactionsOf(log[..|log| - 1]) + TransactionIn(log[|log| - 1])
  }

  /** The k-th event is the last record of an issuance. */
  ghost predicate LastIssuanceRecord(log: seq<Event>, k: int) {
    && 0 <= k < |log| && log[k].payload.IssuancePersisted?
    && forall j :: k < j < |log| ==> !log[j].payload.IssuancePersisted?
  }

  /** The blockchain id is that of the last record of an issuance, if there is any. */
  ghost predicate Identifies(blockchainId: Option<int>, log: seq<Event>) {
    && (blockchainId == None <==> forall k :: 0 <= k < |log| ==> !log[k].payload.IssuancePersisted?)
    && (forall k :: LastIssuanceRecord(log, k) ==> blockchainId == Some(log[k].payload.blockchainCertificateId))
  }

  /** Everything in a read model but its balances and whether it is synchronised. */
  ghost predicate Describes(c: Certificate, log: seq<Event>)
    requires log != []
  {
    && c.internalCertificateId == log[0].certificateId
    && log[0].payload.Issued? && c.details == log[0].payload.details
    && c.claims == ClaimsOf(log) && c.transactions == TransactionsOf(log)
    && Identifies(c.blockchainCertificateId, log)
  }

  lemma ClaimsStep(log: seq<Event>, e: Event)
    ensures ClaimsOf(log + [e]) ==
            if e.payload.Claimed? then ClaimsOf(log) + [Claim(e.payload.forAddress, e.payload.claimed)]
            else ClaimsOf(log)
  {
    assert (log + [e])[..|log|] == log;
    assert ClaimsOf(log) + [] == ClaimsOf(log);
  }

  lemma TransactionsStep(log: seq<Event>, e: Event)
    ensures TransactionsOf(log + [e]) == TransactionsOf(log) + TransactionIn(e)
  {
    assert (log + [e])[..|log|] == log;
  }

  lemma IdentifiesStep(blockchainId: Option<int>, log: seq<Event>, e: Event)
    requires Identifies(blockchainId, log)
    ensures Identifies(if e.payload.IssuancePersisted? then Some(e.payload.blockchainCertificateId) else blockchainId,
                       log + [e])
  {
    var longer := log + [e];
    assert forall k :: 0 <= k < |log| ==> longer[k] == log[k];
    assert longer[|log|] == e;
    forall k | LastIssuanceRecord(longer, k) && k < |log| ensures LastIssuanceRecord(log, k) {
      assert longer[k] == log[k];
    }
  }

  lemma ApplyDescribes(c: Certificate, log: seq<Event>, e: Event)
    requires log != [] && Describes(c, log) && Apply(c, e).Ok?
    ensures Describes(Apply(c, e).value, log + [e])
  {
    hide ClaimsOf, TransactionsOf, Identifies;
    ClaimsStep(log, e);
    TransactionsStep(log, e);
    assert TransactionsOf(log) + [] == TransactionsOf(log);
    IdentifiesStep(c.blockchainCertificateId, log, e);
    assert (log + [e])[0] == log[0];
  }

  lemma FirstDescribes(e: Event)
    requires e.payload.Issued?
    ensures Describes(CreateCertificate(e), [e])
  {
    ClaimsStep([], e);
    TransactionsStep([], e);
    assert [] + [e] == [e];
  }

  lemma {:induction false} FoldDescribes(log: seq<Event>)
    requires Fold(log).Ok?
    ensures Describes(Fold(log).value, log)
  {
    hide Apply, Describes, CreateCertificate;
    var n := |log| - 1;
    if n == 0 {
      FirstDescribes(log[0]);
      assert log == [log[0]];
    } else {
      FoldDescribes(log[..n]);
      ApplyDescribes(Fold(log[..n]).value, log[..n], log[n]);
      assert log == log[..n] + [log[n]];
    }
  }

  /** The read model of an accepted log, apart from its balances, is what its events say in the order of their times. */
  lemma ReadModelOfLog(events: seq<Event>)
    requires FromEvents(events).Ok?
    ensures events != [] && Describes(FromEvents(events).value, SortByTime(events))
  {
    FoldDescribes(SortByTime(events));
  }

  // ----- synchronised or not

  function CountOf(p: Event -> bool, events: seq<Event>): nat {
    if events == [] then 0
    else CountOf(p, events[..|events| - 1]) + if p(events[|events| - 1]) then 1 else 0
  }

  lemma {:induction false} PersistCounts(events: seq<Event>)
    ensures ToPersist(events) == CountOf(ToSynchronize, events) - CountOf(RecordsSuccess, events)
  {
    if events != [] {
      PersistCounts(events[..|events| - 1]);
    }
  }

  /**
   * If no event of a log is refused, its certificate is synchronised exactly when it has as many records of
   * success as events for the blockchain, and the log is refused exactly when it has more.
   */
  lemma SyncedExactly(events: seq<Event>)
    requires Fold(SortByTime(events)).Ok?
    ensures var out, done := CountOf(ToSynchronize, events), CountOf(RecordsSuccess, events);
            && (FromEvents(events) == Err(TooManyPersisted) <==> out < done)
            && (FromEvents(events).Ok? <==> done <= out)
            && (done <= out ==> (FromEvents(events).value.isSynced <==> done == out))
  {
    hide Fold, SortByTime;
    PersistCounts(events);
  }
}
