/**
 * The stored state of the off-chain certificates and what the service's operations make of it:
 * the recorded commands, the event log, the synchronisation attempts and the read models.
 */
module CertificateStore {
  import opened Wrappers
  import opened CertificateEvents
  import opened CertificateAggregate

  /** The time at which the n-th stored event was created. */
  type Clock = nat -> int

  ghost predicate NonDecreasing(clock: Clock) {
    forall i: nat, j: nat :: i <= j ==> clock(i) <= clock(j)
  }

  datatype Command =
    | IssueCommand(toAddress: Address, issued: int, details: string)
    | TransferCommand(certificateId: CertId, fromAddress: Address, recipient: Address, transferred: int)
    | ClaimCommand(certificateId: CertId, forAddress: Address, claimed: int)
    | RecordCommand(record: Payload)

  /** The row that counts the attempts to write an event to the blockchain. */
  datatype Attempt = Attempt(count: nat, error: bool)

  type Attempts = map<nat, Attempt>

  datatype Store = Store(
    commands: seq<Command>,
    events: seq<Event>,
    attempts: Attempts,
    serial: nat,
    models: map<CertId, Certificate>)

  const EMPTY_STORE := Store([], [], map[], 0, map[])

  function LogOf(events: seq<Event>, id: CertId): seq<Event> {
    if events == [] then []
    else
      var n := |events| - 1;
      LogOf(events[..n], id) + if events[n].certificateId == id then [events[n]] else []
  }

  // ----- repository steps

  function NewEvent(clock: Clock, s: Store, id: CertId, payload: Payload): Event {
    Event(|s.events| + 1, id, clock(|s.events|), payload)
  }

  /** Every attempt row with one of the given ids is counted up once. */
  function UpdateAttempt(attempts: Attempts, eventIds: seq<nat>, error: bool): Attempts {
    map id | id in attempts :: if id in eventIds then Attempt(attempts[id].count + 1, error) else attempts[id]
  }

  function SaveEvent(s: Store, e: Event): Store {
    s.(events := s.events + [e],
       attempts := if ToSynchronize(e) then s.attempts[e.id := Attempt(0, false)] else s.attempts)
  }

  function PersistedEventId(payload: Payload): seq<nat> {
    match payload
    case IssuancePersisted(_, id, _) => [id]
    case TransferPersisted(id, _) => [id]
    case ClaimPersisted(id, _) => [id]
    case PersistError(id) => [id]
    case _ => []
  }

  // ----- single commands

  /** The aggregate an operation builds from the stored events of a certificate and one new event. */
  function Aggregate(s: Store, e: Event): Result<Certificate, AggregateError> {
    FromEvents(LogOf(s.events, e.certificateId) + [e])
  }

  function Propagate(s: Store, e: Event, c: Certificate): Store {
    var saved := SaveEvent(s.(models := s.models[e.certificateId := c]), e);
    saved.(attempts := UpdateAttempt(saved.attempts, PersistedEventId(e.payload), e.payload.PersistError?))
  }

  function Record(s: Store, command: Command): Store {
    s.(commands := s.commands + [command])
  }

  /** Save the command, then the event it leads to unless the aggregate rejects it. */
  function Append(clock: Clock, s: Store, command: Command, id: CertId, payload: Payload):
    (Store, Option<AggregateError>)
  {
    var e := NewEvent(clock, s, id, payload);
    match Aggregate(s, e)
    case Err(error) => (Record(s, command), Some(error))
    case Ok(c) => (Propagate(Record(s, command), e, c), None)
  }

  function PayloadOf(command: Command): Payload {
    match command
    case IssueCommand(to, value, details) => Issued(to, value, details)
    case TransferCommand(_, from, to, value) => Transferred(from, to, value)
    case ClaimCommand(_, owner, value) => Claimed(owner, value)
    case RecordCommand(record) => record
  }

  function Issue(clock: Clock, s: Store, command: Command): (Store, Option<AggregateError>)
    requires command.IssueCommand?
  {
    Append(clock, s.(serial := s.serial + 1), command, s.serial + 1, PayloadOf(command))
  }

  function TransferOrClaim(clock: Clock, s: Store, command: Command): (Store, Option<AggregateError>)
    requires command.TransferCommand? || command.ClaimCommand?
  {
    Append(clock, s, command, command.certificateId, PayloadOf(command))
  }

  function Persist(clock: Clock, s: Store, id: CertId, payload: Payload): (Store, Option<AggregateError>) {
    Append(clock, s, RecordCommand(payload), id, payload)
  }

  // ----- batches

  ghost predicate NewPayload(payload: Payload) {
    payload.Issued? || payload.Transferred? || payload.Claimed?
  }

  /** The events of a batch: one for every command, under the certificate ids given with them. */
  function BatchEvents(clock: Clock, s: Store, commands: seq<Command>, ids: seq<CertId>): (es: seq<Event>)
    requires |ids| == |commands|
    ensures |es| == |commands|
  {
    seq(|commands|, i requires 0 <= i < |commands| =>
      Event(|s.events| + i + 1, ids[i], clock(|s.events| + i), PayloadOf(commands[i])))
  }

  function CertificatesOf(es: seq<Event>): set<CertId> {
    set i | 0 <= i < |es| :: es[i].certificateId
  }

  /** Some events by certificate, each certificate's in the order in which they are listed. */
  function GroupByCertificate(es: seq<Event>): map<CertId, seq<Event>> {
    map id | id in CertificatesOf(es) :: LogOf(es, id)
  }

  /** The aggregate of one certificate's share of a batch. */
  function GroupAggregate(s: Store, es: seq<Event>, id: CertId): Result<Certificate, AggregateError> {
    FromEvents(LogOf(s.events, id) + LogOf(es, id))
  }

  predicate BatchAccepted(s: Store, es: seq<Event>) {
    forall id | id in CertificatesOf(es) :: GroupAggregate(s, es, id).Ok?
  }

  function NewAttempts(attempts: Attempts, es: seq<Event>): Attempts {
    if es == [] then attempts
    else
      var e := es[|es| - 1];
      var before := NewAttempts(attempts, es[..|es| - 1]);
      if ToSynchronize(e) then before[e.id := Attempt(0, false)] else before
  }

  function PropagateMany(s: Store, es: seq<Event>): Store
    requires BatchAccepted(s, es)
  {
    s.(models := map id | id in s.models.Keys + CertificatesOf(es) ::
                   if id in CertificatesOf(es) then GroupAggregate(s, es, id).value else s.models[id],
       events := s.events + es,
       attempts := NewAttempts(s.attempts, es))
  }

  function RecordAll(s: Store, commands: seq<Command>): Store {
    s.(commands := s.commands + commands)
  }

  /** The commands stay recorded whether or not the batch is accepted; everything else is all or nothing. */
  function Batch(clock: Clock, s: Store, commands: seq<Command>, ids: seq<CertId>): (Store, bool)
    requires |ids| == |commands|
  {
    var es := BatchEvents(clock, s, commands, ids);
    if BatchAccepted(s, es) then (PropagateMany(RecordAll(s, commands), es), true) else (RecordAll(s, commands), false)
  }

  predicate OnCertificate(command: Command) {
    command.TransferCommand? || command.ClaimCommand?
  }

  function TargetsOf(commands: seq<Command>): (ids: seq<CertId>)
    requires forall i :: 0 <= i < |commands| ==> OnCertificate(commands[i])
    ensures |ids| == |commands|
  {
    seq(|commands|, i requires 0 <= i < |commands| && OnCertificate(commands[i]) => commands[i].certificateId)
  }

  /** A batch of transfers or of claims. */
  function HandleBatch(clock: Clock, s: Store, commands: seq<Command>): (Store, bool)
    requires forall i :: 0 <= i < |commands| ==> OnCertificate(commands[i])
  {
    Batch(clock, s, commands, TargetsOf(commands))
  }

  function FreshIds(serial: nat, n: nat): (ids: seq<CertId>)
    ensures |ids| == n
  {
    seq(n, i requires 0 <= i < n => serial + i + 1)
  }

  /** A batch of issuances, each under an id of its own. */
  function BatchIssue(clock: Clock, s: Store, commands: seq<Command>): (Store, bool) {
    Batch(clock, s.(serial := s.serial + |commands|), commands, FreshIds(s.serial, |commands|))
  }

  // ----- the same commands one by one

  /** Run commands in order until the first one that is rejected. */
  function AppendAll(clock: Clock, s: Store, commands: seq<Command>, ids: seq<CertId>): (Store, bool)
    requires |ids| == |commands|
  {
    if commands == [] then (s, true)
    else
      var n := |commands| - 1;
      var (before, ok) := AppendAll(clock, s, commands[..n], ids[..n]);
      if !ok then (before, false)
      else
        var (after, error) := Append(clock, before, commands[n], ids[n], PayloadOf(commands[n]));
        (after, error.None?)
  }

  // ----- what every operation keeps

  /** Ids and times follow the order of the log, and only issued certificates have events. */
  ghost predicate LogInOrder(clock: Clock, s: Store) {
    && (forall i :: 0 <= i < |s.events| ==> s.events[i].id == i + 1 && s.events[i].createdAt == clock(i))
    && (forall i :: 0 <= i < |s.events| ==> s.events[i].certificateId <= s.serial)
  }

  /** The read model of each certificate is the fold of its stored events. */
  ghost predicate ModelsAgree(s: Store) {
    forall id :: if LogOf(s.events, id) == [] then id !in s.models
                 else id in s.models && FromEvents(LogOf(s.events, id)) == Ok(s.models[id])
  }

  ghost predicate HasAttempts(s: Store) {
    forall id :: id in s.attempts <==> 1 <= id <= |s.events| && ToSynchronize(s.events[id - 1])
  }

  ghost predicate Consistent(clock: Clock, s: Store) {
    NonDecreasing(clock) && LogInOrder(clock, s) && ModelsAgree(s) && HasAttempts(s)
  }
}
