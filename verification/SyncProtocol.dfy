/**
 * The synchronisation of certificate events with the blockchain: which events a pass selects, how
 * they are queued and sent in blocks, and how the outcome of each call is recorded.
 */
module SyncProtocol {
  import opened Wrappers
  import opened CertificateEvents
  import opened CertificateStore
  import opened BatchQueue

  // ----- requests that the service answers beside the synchronisation

  type IssueOrder = c: Command | c.IssueCommand? witness IssueCommand(Account(0), 0, "")

  type TargetedOrder = c: Command | OnCertificate(c) witness ClaimCommand(0, Account(0), 0)

  datatype Request =
    | IssueOne(issuance: IssueOrder)
    | OnOne(order: TargetedOrder)
    | IssueMany(issuances: seq<IssueOrder>)
    | OnMany(orders: seq<TargetedOrder>)

  function Serve(clock: Clock, s: Store, r: Request): Store {
    match r
    case IssueOne(command) => Issue(clock, s, command).0
    case OnOne(command) => TransferOrClaim(clock, s, command).0
    case IssueMany(commands) => BatchIssue(clock, s, commands).0
    case OnMany(commands) => HandleBatch(clock, s, commands).0
  }

  function ServeAll(clock: Clock, s: Store, requests: seq<Request>): Store {
    if requests == [] then s else Serve(clock, ServeAll(clock, s, requests[..|requests| - 1]), requests[|requests| - 1])
  }

  // ----- the environment of a run

  /** One call to the blockchain: what is requested meanwhile, whether it succeeds, and with what. */
  datatype Moment = Moment(arrivals: seq<Request>, accepted: bool, blockchainIds: nat -> int, transactionHash: string)

  datatype Kind = Issuances | Transfers | Claims

  datatype Env = Env(clock: Clock, max: nat, sizes: Kind -> nat, script: nat -> Moment)

  ghost predicate StrictClock(clock: Clock) {
    forall i: nat, j: nat :: i < j ==> clock(i) < clock(j)
  }

  ghost predicate Proper(env: Env) {
    StrictClock(env.clock) && 1 <= env.max && forall kind :: 1 <= env.sizes(kind)
  }

  /**
   * What was requested of the blockchain in one call: some events, each under its certificate's
   * blockchain id if any.
   */
  datatype Call = Call(kind: Kind, events: seq<Event>, targets: seq<Option<int>>)

  /** How often the blockchain was called, the events it accepted in their order, and a history of all calls. */
  datatype Chain = Chain(calls: nat, accepted: seq<Event>, history: seq<Call>)

  /** A world in which an exception has escaped from the synchronisation does not go on. */
  datatype World = World(store: Store, chain: Chain, thrown: bool)

  const EMPTY_WORLD := World(EMPTY_STORE, Chain(0, [], []), false)

  // ----- selection

  predicate FailedCertificate(s: Store, max: nat, id: CertId) {
    exists i :: 0 <= i < |s.events| && s.events[i].certificateId == id
                && s.events[i].id in s.attempts && s.attempts[s.events[i].id].count >= max
  }

  predicate Selectable(s: Store, max: nat, e: Event) {
    && e.id in s.attempts
    && (var row := s.attempts[e.id]; row.count == 0 || (row.error && row.count < max))
    && !FailedCertificate(s, max, e.certificateId)
  }

  function Eligible(s: Store, max: nat, events: seq<Event>): seq<Event> {
    if events == [] then []
    else
      var n := |events| - 1;
      Eligible(s, max, events[..n]) + if Selectable(s, max, events[n]) then [events[n]] else []
  }

  function FirstOf(events: seq<Event>, limit: nat): seq<Event> {
    if limit == 0 || |events| <= limit then events else events[..limit]
  }

  /** The earliest events that still have to be sent; a limit of zero is no limit. */
  function Select(s: Store, max: nat, limit: nat): seq<Event> {
    FirstOf(SortByTime(Eligible(s, max, s.events)), limit)
  }

  // ----- filters

  predicate OfKind(kind: Kind, e: Event) {
    match kind
    case Issuances => e.payload.Issued?
    case Transfers => e.payload.Transferred?
    case Claims => e.payload.Claimed?
  }

  function Only(kind: Kind, events: seq<Event>): seq<Event> {
    if events == [] then []
    else Only(kind, events[..|events| - 1]) + if OfKind(kind, events[|events| - 1]) then [events[|events| - 1]] else []
  }

  function NotFailed(events: seq<Event>, failed: seq<CertId>): seq<Event> {
    if events == [] then []
    else
      NotFailed(events[..|events| - 1], failed) +
      if events[|events| - 1].certificateId in failed then [] else [events[|events| - 1]]
  }

  predicate HasBlockchainId(events: seq<Event>, id: CertId) {
    exists i :: 0 <= i < |events| && events[i].certificateId == id && events[i].payload.IssuancePersisted?
  }

  function WithBlockchainId(s: Store, events: seq<Event>): seq<Event> {
    if events == [] then []
    else
      WithBlockchainId(s, events[..|events| - 1]) +
      if HasBlockchainId(s.events, events[|events| - 1].certificateId) then [events[|events| - 1]] else []
  }

  /**
   * The blockchain ids recorded in some events for the given certificates; a later record overwrites an
   * earlier one.
   */
  function BlockchainIds(events: seq<Event>, ids: set<CertId>): map<CertId, int> {
    if events == [] then map[]
    else
      var before, e := BlockchainIds(events[..|events| - 1], ids), events[|events| - 1];
      if e.payload.IssuancePersisted? && e.certificateId in ids
      then before[e.certificateId := e.payload.blockchainCertificateId] else before
  }

  /** A certificate is in the id map exactly when its issuance has been recorded. */
  lemma {:induction false} InIdMap(events: seq<Event>, ids: set<CertId>, id: CertId)
    ensures id in BlockchainIds(events, ids) <==> id in ids && HasBlockchainId(events, id)
  {
    if events != [] {
      var n := |events| - 1;
      InIdMap(events[..n], ids, id);
      assert HasBlockchainId(events, id) <==>
             HasBlockchainId(events[..n], id)
             || (events[n].certificateId == id && events[n].payload.IssuancePersisted?);
    }
  }

  /** The last record of a certificate's issuance is the one that its id is taken from. */
  lemma {:induction false} LatestRecordWins(events: seq<Event>, ids: set<CertId>, n: nat)
    requires n < |events| && events[n].payload.IssuancePersisted? && events[n].certificateId in ids
    requires forall j :: n < j < |events| && events[j].certificateId == events[n].certificateId ==>
               !events[j].payload.IssuancePersisted?
    ensures events[n].certificateId in BlockchainIds(events, ids)
    ensures BlockchainIds(events, ids)[events[n].certificateId] == events[n].payload.blockchainCertificateId
  {
    if n < |events| - 1 {
      LatestRecordWins(events[..|events| - 1], ids, n);
    }
  }

  function Chunk(events: seq<Event>, size: nat): seq<seq<Event>>
    requires 1 <= size
  {
    if events == [] then []
    else if |events| <= size then [events]
    else [events[..size]] + Chunk(events[size..], size)
  }

  /** The blocks hold the events in their order, and all but the last one are full. */
  lemma {:induction false} BlocksAreFull(events: seq<Event>, size: nat, i: nat)
    requires 1 <= size && i < |Chunk(events, size)|
    ensures var n := if (i + 1) * size <= |events| then (i + 1) * size else |events|;
            i * size < n && Chunk(events, size)[i] == events[i * size..n]
    ensures |events| <= |Chunk(events, size)| * size
    decreases |events|
  {
    if |events| > size {
      var rest := Chunk(events[size..], size);
      BlocksAreFull(events[size..], size, if i == 0 then 0 else i - 1);
      assert (|rest| + 1) * size == |rest| * size + size;
      if i > 0 {
        assert (i - 1) * size + size == i * size && i * size + size == (i + 1) * size;
      }
    } else {
      assert |Chunk(events, size)| == 1;
    }
  }

  function CertificateIds(events: seq<Event>): (ids: seq<CertId>)
    ensures |ids| == |events|
  {
    seq(|events|, i requires 0 <= i < |events| => events[i].certificateId)
  }

  // ----- one block

  function SuccessPayload(kind: Kind, m: Moment, i: nat, e: Event): Payload {
    match kind
    case Issuances => IssuancePersisted(m.blockchainIds(i), e.id, m.transactionHash)
    case Transfers => TransferPersisted(e.id, m.transactionHash)
    case Claims => ClaimPersisted(e.id, m.transactionHash)
  }

  /** Record the success of a block from its i-th event on; false if one of the records is rejected. */
  function RecordSuccesses(clock: Clock, kind: Kind, m: Moment, s: Store, events: seq<Event>, i: nat): (Store, bool)
    decreases |events| - i
  {
    if i >= |events| then (s, true)
    else
      var (one, error) := Persist(clock, s, events[i].certificateId, SuccessPayload(kind, m, i, events[i]));
      var (all, ok) := RecordSuccesses(clock, kind, m, one, events, i + 1);
      (all, error.None? && ok)
  }

  function RecordErrors(clock: Clock, s: Store, events: seq<Event>, i: nat): (Store, bool)
    decreases |events| - i
  {
    if i >= |events| then (s, true)
    else
      var (one, error) := Persist(clock, s, events[i].certificateId, PersistError(events[i].id));
      var (all, ok) := RecordErrors(clock, one, events, i + 1);
      (all, error.None? && ok)
  }

  /** The blockchain ids under which some events are sent. */
  function TargetsIn(idMap: map<CertId, int>, events: seq<Event>): (targets: seq<Option<int>>)
    ensures |targets| == |events|
  {
    seq(|events|, i requires 0 <= i < |events| =>
      if events[i].certificateId in idMap then Some(idMap[events[i].certificateId]) else None)
  }

  /** Send a block; the ids returned are those of the certificates whose events failed. */
  function SendBlock(env: Env, kind: Kind, idMap: map<CertId, int>, w: World, events: seq<Event>): (World, seq<CertId>)
  {
    var m := env.script(w.chain.calls);
    var arrived := ServeAll(env.clock, w.store, m.arrivals);
    var chain := Chain(w.chain.calls + 1, if m.accepted then w.chain.accepted + events else w.chain.accepted,
                       w.chain.history + [Call(kind, events, TargetsIn(idMap, events))]);
    var (recorded, ok) :=
      if m.accepted then RecordSuccesses(env.clock, kind, m, arrived, events, 0) else (arrived, false);
    if ok then (World(recorded, chain, false), [])
    else
      var (errors, caught) := RecordErrors(env.clock, recorded, events, 0);
      (World(errors, chain, !caught), CertificateIds(events))
  }

  /** The issue handler leaves out certificates that failed in an earlier block; the others do not. */
  function ToSend(kind: Kind, block: seq<Event>, failed: seq<CertId>): seq<Event> {
    if kind.Issuances? then NotFailed(block, failed) else block
  }

  function HandleBlocks(env: Env, kind: Kind, idMap: map<CertId, int>, w: World, blocks: seq<seq<Event>>,
                        failed: seq<CertId>):
    (World, seq<CertId>)
    decreases |blocks|
  {
    if blocks == [] || w.thrown then (w, failed)
    else
      var (next, ids) := SendBlock(env, kind, idMap, w, ToSend(kind, blocks[0], failed));
      HandleBlocks(env, kind, idMap, next, blocks[1..], failed + ids)
  }

  // ----- one pass

  datatype Sync = Sync(world: World, queue: Queue, failed: seq<CertId>)

  function Without(q: Queue, ids: seq<CertId>): Queue {
    map id | id in q && id !in ids :: q[id]
  }

  function PhaseCandidates(kind: Kind, batch: seq<Event>, y: Sync): seq<Event> {
    NotFailed(Only(kind, batch), y.failed)
  }

  function PhaseEvents(kind: Kind, batch: seq<Event>, y: Sync): seq<Event> {
    var candidates := PhaseCandidates(kind, batch, y);
    if kind.Issuances? then candidates else WithBlockchainId(y.world.store, candidates)
  }

  /** The blockchain ids that are looked up before the transfers, or the claims, of a round are sent. */
  function PhaseIds(kind: Kind, batch: seq<Event>, y: Sync): map<CertId, int> {
    if kind.Issuances? then map[]
    else BlockchainIds(y.world.store.events, CertificatesOf(PhaseCandidates(kind, batch, y)))
  }

  /** The part of a round that sends one kind of events; failed claims are not put down as failed. */
  function Phase(env: Env, kind: Kind, batch: seq<Event>, y: Sync): Sync
    requires 1 <= env.sizes(kind)
  {
    var blocks := Chunk(PhaseEvents(kind, batch, y), env.sizes(kind));
    var (world, ids) := HandleBlocks(env, kind, PhaseIds(kind, batch, y), y.world, blocks, []);
    Sync(world, Without(y.queue, ids), if kind.Claims? then y.failed else y.failed + ids)
  }

  ghost function Round(env: Env, y: Sync): Sync
    requires Proper(env)
  {
    var batch := PoppedBatch(y.queue);
    var popped := y.(queue := AfterPop(y.queue));
    Phase(env, Claims, batch, Phase(env, Transfers, batch, Phase(env, Issuances, batch, popped)))
  }

  lemma PhaseShrinksQueue(env: Env, kind: Kind, batch: seq<Event>, y: Sync)
    requires 1 <= env.sizes(kind)
    ensures Longest(Phase(env, kind, batch, y).queue) <= Longest(y.queue)
  {
    hide HandleBlocks, PhaseEvents, PhaseIds, Chunk, Longest;
    var blocks := Chunk(PhaseEvents(kind, batch, y), env.sizes(kind));
    var ids := HandleBlocks(env, kind, PhaseIds(kind, batch, y), y.world, blocks, []).1;
    WithoutShrinks(y.queue, ids);
  }

  lemma WithoutShrinks(q: Queue, ids: seq<CertId>)
    ensures Longest(Without(q, ids)) <= Longest(q)
  {
    hide Longest;
    LongestBounds(q);
    LongestBounds(Without(q, ids));
    if Longest(Without(q, ids)) > 0 {
      var id :| |Waiting(Without(q, ids), id)| == Longest(Without(q, ids));
      assert |Waiting(Without(q, ids), id)| <= |Waiting(q, id)|;
    }
  }

  lemma RoundShrinksQueue(env: Env, y: Sync)
    requires Proper(env) && !IsEmptyQueue(y.queue)
    ensures Longest(Round(env, y).queue) < Longest(y.queue)
  {
    hide Phase, Longest, PoppedBatch, AfterPop, IsEmptyQueue;
    PopShortens(y.queue);
    var batch := PoppedBatch(y.queue);
    var popped := y.(queue := AfterPop(y.queue));
    PhaseShrinksQueue(env, Issuances, batch, popped);
    var issued := Phase(env, Issuances, batch, popped);
    PhaseShrinksQueue(env, Transfers, batch, issued);
    PhaseShrinksQueue(env, Claims, batch, Phase(env, Transfers, batch, issued));
  }

  ghost function Rounds(env: Env, y: Sync): Sync
    requires Proper(env)
    decreases Longest(y.queue)
  {
    if IsEmptyQueue(y.queue) || y.world.thrown then y
    else
      RoundShrinksQueue(env, y);
      Rounds(env, Round(env, y))
  }

  ghost function Synchronize(env: Env, w: World, events: seq<Event>): World
    requires Proper(env)
  {
    Rounds(env, Sync(w, QueueOf(events), [])).world
  }

  const PASS_LIMIT := 500
  const PASSES_PER_TASK := 50

  /** One pass: select and synchronise. */
  ghost function Pass(env: Env, w: World, limit: nat): World
    requires Proper(env)
  {
    Synchronize(env, w, Select(w.store, env.max, limit))
  }

  /** The job repeats passes until nothing is selected, or until it has done all it may. */
  ghost function Task(env: Env, w: World, passes: nat): World
    requires Proper(env)
    decreases passes
  {
    if passes == 0 || w.thrown || Select(w.store, env.max, PASS_LIMIT) == [] then w
    else Task(env, Pass(env, w, PASS_LIMIT), passes - 1)
  }

  // ----- runs

  datatype Action = Ask(request: Request) | Run(limit: nat)

  ghost function Step(env: Env, w: World, action: Action): World
    requires Proper(env)
  {
    if w.thrown then w
    else
      match action
      case Ask(request) => w.(store := Serve(env.clock, w.store, request))
      case Run(limit) => Pass(env, w, limit)
  }

  /** Any run from an empty store: requests and passes in any order. */
  ghost function After(env: Env, actions: seq<Action>): World
    requires Proper(env)
  {
    if actions == [] then EMPTY_WORLD else Step(env, After(env, actions[..|actions| - 1]), actions[|actions| - 1])
  }
}
