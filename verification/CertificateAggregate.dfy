/** A certificate's read model as the fold of its events. */
module CertificateAggregate {
  import opened Sequences
  import opened StableSort
  import opened Wrappers
  import opened CertificateEvents

  datatype Claim = Claim(owner: Address, value: int)

  datatype TransactionKind = IssuanceTransaction | TransferTransaction | ClaimTransaction

  datatype Transaction = Transaction(kind: TransactionKind, timestamp: int, transactionHash: string)

  datatype Certificate = Certificate(
    internalCertificateId: CertId,
    blockchainCertificateId: Option<int>,
    details: string,
    owners: map<Address, int>,
    claimers: map<Address, int>,
    claims: seq<Claim>,
    isSynced: bool,
    transactions: seq<Transaction>)

  datatype AggregateError =
    | NoEvents
    | FirstEventIsNotIssuance
    | AlreadyIssued
    | TransferFromZeroAddress
    | TransferToZeroAddress
    | TransferNotEnoughBalance
    | ClaimForZeroAddress
    | ClaimNotEnoughBalance
    | TooManyPersisted

  function Balance(m: map<Address, int>, a: Address): int {
    if a in m then m[a] else 0
  }

  predicate HasEnoughBalance(c: Certificate, a: Address, volume: int) {
    a in c.owners && volume <= c.owners[a]
  }

  function CreateCertificate(e: Event): Certificate
    requires e.payload.Issued?
  {
    Certificate(e.certificateId, None, e.payload.details, map[e.payload.toAddress := e.payload.issued], map[], [],
                false, [])
  }

  function Transfer(c: Certificate, from: Address, to: Address, value: int): Result<Certificate, AggregateError> {
    if from.Zero? then Err(TransferFromZeroAddress)
    else if to.Zero? then Err(TransferToZeroAddress)
    else if !HasEnoughBalance(c, from, value) then Err(TransferNotEnoughBalance)
    else
      // both balances are read before either is written, and the recipient's is written last
      var newFromBalance := Balance(c.owners, from) - value;
      var newToBalance := Balance(c.owners, to) + value;
      Ok(c.(owners := c.owners[from := newFromBalance][to := newToBalance]))
  }

  function ClaimFor(c: Certificate, owner: Address, value: int): Result<Certificate, AggregateError> {
    if owner.Zero? then Err(ClaimForZeroAddress)
    else if !HasEnoughBalance(c, owner, value) then Err(ClaimNotEnoughBalance)
    else
      Ok(c.(owners := c.owners[owner := c.owners[owner] - value],
            claimers := c.claimers[owner := Balance(c.claimers, owner) + value],
            claims := c.claims + [Claim(owner, value)]))
  }

  function AddTransaction(c: Certificate, kind: TransactionKind, e: Event, hash: string): Certificate {
    c.(transactions := c.transactions + [Transaction(kind, e.createdAt, hash)])
  }

  function Apply(c: Certificate, e: Event): Result<Certificate, AggregateError> {
    match e.payload
    case Issued(_, _, _) => Err(AlreadyIssued)
    case Transferred(from, to, value) => Transfer(c, from, to, value)
    case Claimed(owner, value) => ClaimFor(c, owner, value)
    case IssuancePersisted(blockchainId, _, hash) =>
      Ok(AddTransaction(c, IssuanceTransaction, e, hash).(blockchainCertificateId := Some(blockchainId)))
    case TransferPersisted(_, hash) => Ok(AddTransaction(c, TransferTransaction, e, hash))
    case ClaimPersisted(_, hash) => Ok(AddTransaction(c, ClaimTransaction, e, hash))
    case PersistError(_) => Ok(c)
  }

  /** The fold over a log that is already in order. */
  function Fold(log: seq<Event>): Result<Certificate, AggregateError> {
    if log == [] then Err(NoEvents)
    else if |log| == 1 then
      if log[0].payload.Issued? then Ok(CreateCertificate(log[0])) else Err(FirstEventIsNotIssuance)
    else
      match Fold(log[..|log| - 1])
      case Err(error) => Err(error)
      case Ok(c) => Apply(c, log[|log| - 1])
  }

  function SyncWeight(e: Event): int {
    if ToSynchronize(e) then 1 else if RecordsSuccess(e) then -1 else 0
  }

  /** How many events of the log still have to be written to the blockchain. */
  function ToPersist(log: seq<Event>): int {
    SumOf(SyncWeight, log)
  }

  function FromEvents(events: seq<Event>): Result<Certificate, AggregateError> {
    match Fold(SortByTime(events))
    case Err(error) => Err(error)
    case Ok(c) =>
      if ToPersist(events) < 0 then Err(TooManyPersisted) else Ok(c.(isSynced := ToPersist(events) == 0))
  }

  // ----- the order in which events are listed does not matter

  /** With distinct times, any listing of the same events gives the same certificate or the same error. */
  lemma LogOrderIndependence(a: seq<Event>, b: seq<Event>)
    requires multiset(a) == multiset(b) && DistinctTimes(a)
    ensures FromEvents(a) == FromEvents(b)
  {
    SortForgetsOrder(a, b);
    SumOfSorted(SyncWeight, a);
    SumOfSorted(SyncWeight, b);
  }

  // ----- sums over balances

  ghost function Total(m: map<Address, int>): int {
    if m == map[] then 0
    else
      var a :| a in m;
      m[a] + Total(m - {a})
  }

  lemma {:induction false} TotalWithout(m: map<Address, int>, a: Address)
    requires a in m
    ensures Total(m) == m[a] + Total(m - {a})
    decreases |m|
  {
    var b :| b in m && Total(m) == m[b] + Total(m - {b});
    if a != b {
      TotalWithout(m - {b}, a);
      TotalWithout(m - {a}, b);
      assert m - {b} - {a} == m - {a} - {b};
    }
  }

  lemma TotalUpdate(m: map<Address, int>, a: Address, v: int)
    ensures Total(m[a := v]) == Total(m) - Balance(m, a) + v
  {
    TotalWithout(m[a := v], a);
    if a in m {
      TotalWithout(m, a);
      assert m[a := v] - {a} == m - {a};
    } else {
      assert m[a := v] - {a} == m;
    }
  }

  lemma TotalOfOne(a: Address, v: int)
    ensures Total(map[a := v]) == v
  {
    TotalUpdate(map[], a, v);
    assert map[a := v] == map[][a := v];
  }

  /** All energy of a certificate, unclaimed and claimed. */
  ghost function Energy(c: Certificate): int {
    Total(c.owners) + Total(c.claimers)
  }

  // ----- conservation

  function IssuedBy(e: Event): int {
    if e.payload.Issued? then e.payload.issued else 0
  }

  /** What a transfer from an address to itself moves. */
  function SelfTransferredBy(e: Event): int {
    if e.payload.Transferred? && e.payload.fromAddress == e.payload.recipient then e.payload.transferred else 0
  }

  lemma TransferEnergy(c: Certificate, from: Address, to: Address, value: int)
    requires Transfer(c, from, to, value).Ok?
    ensures Energy(Transfer(c, from, to, value).value) == Energy(c) + if from == to then value else 0
  {
    TotalUpdate(c.owners, from, Balance(c.owners, from) - value);
    TotalUpdate(c.owners[from := Balance(c.owners, from) - value], to, Balance(c.owners, to) + value);
  }

  lemma ClaimEnergy(c: Certificate, owner: Address, value: int)
    requires ClaimFor(c, owner, value).Ok?
    ensures Energy(ClaimFor(c, owner, value).value) == Energy(c)
  {
    TotalUpdate(c.owners, owner, c.owners[owner] - value);
    TotalUpdate(c.claimers, owner, Balance(c.claimers, owner) + value);
  }

  lemma {:induction false} FoldEnergy(log: seq<Event>)
    requires Fold(log).Ok?
    ensures Energy(Fold(log).value) == SumOf(IssuedBy, log) + SumOf(SelfTransferredBy, log)
  {
    if |log| == 1 {
      TotalOfOne(log[0].payload.toAddress, log[0].payload.issued);
      assert log[..0] == [];
    } else {
      var n := |log| - 1;
      FoldEnergy(log[..n]);
      var c, e := Fold(log[..n]).value, log[n];
      if e.payload.Transferred? {
        TransferEnergy(c, e.payload.fromAddress, e.payload.recipient, e.payload.transferred);
      } else if e.payload.Claimed? {
        ClaimEnergy(c, e.payload.forAddress, e.payload.claimed);
      }
    }
  }

  /**
   * Energy of any accepted log: the energy in the certificate is the issued value plus whatever was
   * transferred from an address to itself, because such a transfer writes the same balance twice and
   * keeps the second value.
   */
  lemma EnergyOfLog(events: seq<Event>)
    requires FromEvents(events).Ok?
    ensures Energy(FromEvents(events).value) == SumOf(IssuedBy, events) + SumOf(SelfTransferredBy, events)
  {
    FoldEnergy(SortByTime(events));
    SumOfSorted(IssuedBy, events);
    SumOfSorted(SelfTransferredBy, events);
  }

  /** The values of the commands are not negative, which the validators of the commands see to. */
  predicate NonNegativeValue(e: Event) {
    match e.payload
    case Issued(_, value, _) => 0 <= value
    case Transferred(_, _, value) => 0 <= value
    case Claimed(_, value) => 0 <= value
    case _ => true
  }

  ghost predicate NonNegativeValues(events: seq<Event>) {
    forall i :: 0 <= i < |events| ==> NonNegativeValue(events[i])
  }

  /** A transfer to the sender itself that moves something. */
  predicate MovesToSelf(e: Event) {
    e.payload.Transferred? && e.payload.fromAddress == e.payload.recipient && e.payload.transferred != 0
  }

  lemma {:induction false} NoSelfTransfers(events: seq<Event>)
    requires NonNegativeValues(events)
    ensures 0 <= SumOf(SelfTransferredBy, events)
    ensures SumOf(SelfTransferredBy, events) == 0 <==> forall i :: 0 <= i < |events| ==> !MovesToSelf(events[i])
  {
    if events != [] {
      NoSelfTransfers(events[..|events| - 1]);
      assert NonNegativeValue(events[|events| - 1]);
    }
  }

  /** Energy is conserved exactly when nothing was moved from an address to itself. */
  lemma {:induction false} ConservedExactlyWhen(events: seq<Event>)
    requires FromEvents(events).Ok? && NonNegativeValues(events)
    ensures Energy(FromEvents(events).value) == SumOf(IssuedBy, events)
            <==> forall i :: 0 <= i < |events| ==> !MovesToSelf(events[i])
  {
    EnergyOfLog(events);
    NoSelfTransfers(events);
  }

  // ----- balances and claims

  ghost predicate NonNegativeBalances(c: Certificate) {
    && (forall a :: a in c.owners ==> 0 <= c.owners[a])
    && (forall a :: a in c.claimers ==> 0 <= c.claimers[a])
  }

  lemma {:induction false} FoldBalances(log: seq<Event>)
    requires Fold(log).Ok? && NonNegativeValues(log)
    ensures NonNegativeBalances(Fold(log).value)
  {
    var n := |log| - 1;
    assert NonNegativeValue(log[n]);
    if n > 0 {
      FoldBalances(log[..n]);
    }
  }

  /** No balance of an accepted log with non-negative values is ever negative. */
  lemma BalancesNotNegative(events: seq<Event>)
    requires FromEvents(events).Ok? && NonNegativeValues(events)
    ensures NonNegativeBalances(FromEvents(events).value)
  {
    var sorted := SortByTime(events);
    SortIsSort(events);
    forall i | 0 <= i < |sorted| ensures NonNegativeValue(sorted[i]) {
      assert sorted[i] in multiset(sorted);
      var k := MemberAt(events, sorted[i]);
    }
    FoldBalances(sorted);
  }

  /** The sum of an address's entries among the claims. */
  function ClaimedBy(claims: seq<Claim>, a: Address): int {
    if claims == [] then 0
    else
      var n := |claims| - 1;
      ClaimedBy(claims[..n], a) + if claims[n].owner == a then claims[n].value else 0
  }

  lemma ApplyClaims(c: Certificate, e: Event, a: Address)
    requires Apply(c, e).Ok? && Balance(c.claimers, a) == ClaimedBy(c.claims, a)
    ensures Balance(Apply(c, e).value.claimers, a) == ClaimedBy(Apply(c, e).value.claims, a)
  {
    if e.payload.Claimed? {
      assert (c.claims + [Claim(e.payload.forAddress, e.payload.claimed)])[..|c.claims|] == c.claims;
    }
  }

  lemma {:induction false} FoldClaims(log: seq<Event>, a: Address)
    requires Fold(log).Ok?
    ensures Balance(Fold(log).value.claimers, a) == ClaimedBy(Fold(log).value.claims, a)
  {
    hide Apply;
    var n := |log| - 1;
    if n > 0 {
      FoldClaims(log[..n], a);
      ApplyClaims(Fold(log[..n]).value, log[n], a);
    }
  }

  /** What an address has claimed in total is the sum of its claims. */
  lemma ClaimersAgreeWithClaims(events: seq<Event>, a: Address)
    requires FromEvents(events).Ok?
    ensures Balance(FromEvents(events).value.claimers, a) == ClaimedBy(FromEvents(events).value.claims, a)
  {
    FoldClaims(SortByTime(events), a);
  }

  /** A transfer of five units to the sender itself turns ten units into fifteen. */
  lemma SelfTransferAddsEnergy()
    ensures var a := Account(1);
            var events := [Event(1, 1, 0, Issued(a, 10, "")), Event(2, 1, 1, Transferred(a, a, 5))];
            FromEvents(events).Ok? && Energy(FromEvents(events).value) == 15
  {
    var a := Account(1);
    var events := [Event(1, 1, 0, Issued(a, 10, "")), Event(2, 1, 1, Transferred(a, a, 5))];
    assert events[..1] == [events[0]];
    SortOfSorted(events);
    assert Fold(events[..1]).Ok?;
    assert SumOf(SyncWeight, events[..1]) == 1 by { assert events[..1][..0] == []; }
    EnergyOfLog(events);
    assert SumOf(IssuedBy, events[..1]) == 10 && SumOf(SelfTransferredBy, events[..1]) == 0 by {
      assert events[..1][..0] == [];
    }
  }
}
