/**
 * One round of the spread matcher: the routes between the first usable groups, the amount that
 * can be moved along them, and the matches of the round.
 *
 * Entities are told apart by identity, a value of type E; several entities may carry the same id,
 * and the priority groups speak about ids only.
 */
module SpreadRound {
  import opened Arithmetic
  import opened Sequences

  /** A consumer's place in a priority group, with its own groups of preferred generators. */
  datatype Entry = Entry(id: string, preferences: seq<seq<string>>)

  type Priority = seq<seq<Entry>>

  type Route<E> = (E, E)

  datatype Match<E> = Match(first: E, second: E, volume: int)

  /** Everything about a matching problem that stays fixed while volumes are used up. */
  datatype Market<!E> = Market(priority: Priority, ids: E -> string, side1: seq<E>, side2: seq<E>)

  /** Entities grouped by id, as the prepared input of a round holds them. */
  type Groups<E> = map<string, seq<E>>

  function Volume<E(==)>(vol: map<E, int>, e: E): int {
    if e in vol then vol[e] else 0
  }

  // ----- preparing the entities of a round

  /** The entities that still have volume, in their original order. */
  function Live<E(==)>(es: seq<E>, vol: map<E, int>): seq<E> {
    if es == [] then []
    else
      var n := |es| - 1;
      Live(es[..n], vol) + if Volume(vol, es[n]) == 0 then [] else [es[n]]
  }

  function Lookup<E>(groups: Groups<E>, id: string): seq<E> {
    if id in groups then groups[id] else []
  }

  function Grouped<E>(ids: E -> string, es: seq<E>): Groups<E> {
    if es == [] then map[]
    else
      var n := |es| - 1;
      var groups := Grouped(ids, es[..n]);
      groups[ids(es[n]) := Lookup(groups, ids(es[n])) + [es[n]]]
  }

  // ----- the first usable group

  predicate EntryUsable<E>(entry: Entry, groups: Groups<E>) {
    Lookup(groups, entry.id) != []
  }

  predicate IdUsable<E>(id: string, groups: Groups<E>) {
    Lookup(groups, id) != []
  }

  /** The first priority group with a member that has volume left; empty when there is none. */
  function FirstUsableEntries<E>(priority: Priority, groups: Groups<E>): seq<Entry> {
    if priority == [] then []
    else if exists i :: 0 <= i < |priority[0]| && EntryUsable(priority[0][i], groups) then priority[0]
    else FirstUsableEntries(priority[1..], groups)
  }

  /** The same choice among the preference groups of one entry. */
  function FirstUsableIds<E>(preferences: seq<seq<string>>, groups: Groups<E>): seq<string> {
    if preferences == [] then []
    else if exists i :: 0 <= i < |preferences[0]| && IdUsable(preferences[0][i], groups) then preferences[0]
    else FirstUsableIds(preferences[1..], groups)
  }

  // ----- the routes of a round

  function EntitiesOf<E>(group: seq<string>, groups: Groups<E>): seq<E> {
    if group == [] then [] else EntitiesOf(group[..|group| - 1], groups) + Lookup(groups, group[|group| - 1])
  }

  function PairWith<E>(e: E, others: seq<E>): seq<Route<E>> {
    if others == [] then [] else PairWith(e, others[..|others| - 1]) + [(e, others[|others| - 1])]
  }

  function Cartesian<E>(firsts: seq<E>, seconds: seq<E>): seq<Route<E>> {
    if firsts == [] then []
    else Cartesian(firsts[..|firsts| - 1], seconds) + PairWith(firsts[|firsts| - 1], seconds)
  }

  function Preferred<E>(entry: Entry, groups2: Groups<E>): seq<E> {
    EntitiesOf(FirstUsableIds(entry.preferences, groups2), groups2)
  }

  function EntryRoutes<E>(group: seq<Entry>, groups1: Groups<E>, groups2: Groups<E>): seq<Route<E>> {
    if group == [] then []
    else
      var n := |group| - 1;
      EntryRoutes(group[..n], groups1, groups2)
      + Cartesian(Lookup(groups1, group[n].id), Preferred(group[n], groups2))
  }

  function Routes<E>(priority: Priority, groups1: Groups<E>, groups2: Groups<E>): seq<Route<E>> {
    EntryRoutes(FirstUsableEntries(priority, groups1), groups1, groups2)
  }

  /** What an entity's own list of routes holds once every route was recorded at both its ends. */
  function Neighbours<E(==)>(routes: seq<Route<E>>, e: E): seq<E> {
    if routes == [] then []
    else
      var n := |routes| - 1;
      var r := routes[n];
      Neighbours(routes[..n], e) + (if r.0 == e then [r.1] else []) + (if r.1 == e then [r.0] else [])
  }

  function WithRoutes<E(==)>(es: seq<E>, routes: seq<Route<E>>): seq<E> {
    if es == [] then []
    else
      var n := |es| - 1;
      WithRoutes(es[..n], routes) + if Neighbours(routes, es[n]) == [] then [] else [es[n]]
  }

  // ----- the amount of a round

  /** The volume an entity can give to each of its neighbours. */
  function Share<E(==)>(vol: map<E, int>, routes: seq<Route<E>>, e: E): int {
    var degree := |Neighbours(routes, e)|;
    if degree == 0 then 0 else Quotient(Volume(vol, e), degree)
  }

  /** The first entity whose share is smallest. */
  function SmallestShare<E(==)>(es: seq<E>, vol: map<E, int>, routes: seq<Route<E>>): (e: E)
    requires es != []
    ensures e in es
  {
    var n := |es| - 1;
    if n == 0 then es[0]
    else
      var best := SmallestShare(es[..n], vol, routes);
      if Share(vol, routes, es[n]) < Share(vol, routes, best) then es[n] else best
  }

  // ----- the matches of a round

  function Uniform<E>(routes: seq<Route<E>>, volume: int): seq<Match<E>> {
    if routes == [] then []
    else
      var n := |routes| - 1;
      Uniform(routes[..n], volume) + [Match(routes[n].0, routes[n].1, volume)]
  }

  function Units<E>(chosen: E, isFirst: bool, others: seq<E>): seq<Match<E>> {
    if others == [] then []
    else
      var n := |others| - 1;
      Units(chosen, isFirst, others[..n])
      + [if isFirst then Match(chosen, others[n], 1) else Match(others[n], chosen, 1)]
  }

  /** The first k elements; a negative k counts from the end. */
  function Prefix<T>(s: seq<T>, k: int): seq<T> {
    if k < 0 then (if |s| + k <= 0 then [] else s[..|s| + k]) else if k < |s| then s[..k] else s
  }

  function MatchesOf<E(==)>(routes: seq<Route<E>>, with1: seq<E>, with2: seq<E>, vol: map<E, int>): seq<Match<E>>
    requires with1 + with2 != []
  {
    var chosen := SmallestShare(with1 + with2, vol, routes);
    var amount := Share(vol, routes, chosen);
    if amount == 0 then Units(chosen, chosen in with1, Prefix(Neighbours(routes, chosen), Volume(vol, chosen)))
    else Uniform(routes, amount)
  }

  /** The volume that a list of matches takes from an entity. */
  function Drawn<E(==)>(ms: seq<Match<E>>, e: E): int {
    if ms == [] then 0
    else
      var n := |ms| - 1;
      Drawn(ms[..n], e) + (if ms[n].first == e then ms[n].volume else 0)
      + (if ms[n].second == e then ms[n].volume else 0)
  }

  function After<E(==)>(vol: map<E, int>, ms: seq<Match<E>>): map<E, int> {
    map e | e in vol :: vol[e] - Drawn(ms, e)
  }

  // ----- a round in a market

  function Groups1<E(==)>(mk: Market<E>, vol: map<E, int>): Groups<E> {
    Grouped(mk.ids, Live(mk.side1, vol))
  }

  function Groups2<E(==)>(mk: Market<E>, vol: map<E, int>): Groups<E> {
    Grouped(mk.ids, Live(mk.side2, vol))
  }

  function RoundRoutes<E(==)>(mk: Market<E>, vol: map<E, int>): seq<Route<E>> {
    Routes(mk.priority, Groups1(mk, vol), Groups2(mk, vol))
  }

  function Candidates<E(==)>(mk: Market<E>, vol: map<E, int>): seq<E> {
    WithRoutes(Live(mk.side1, vol), RoundRoutes(mk, vol)) + WithRoutes(Live(mk.side2, vol), RoundRoutes(mk, vol))
  }

  function RoundMatches<E(==)>(mk: Market<E>, vol: map<E, int>): seq<Match<E>>
    requires Candidates(mk, vol) != []
  {
    var routes := RoundRoutes(mk, vol);
    MatchesOf(routes, WithRoutes(Live(mk.side1, vol), routes), WithRoutes(Live(mk.side2, vol), routes), vol)
  }

  function Chosen<E(==)>(mk: Market<E>, vol: map<E, int>): E
    requires Candidates(mk, vol) != []
  {
    SmallestShare(Candidates(mk, vol), vol, RoundRoutes(mk, vol))
  }

  /** The volume every route can carry in this round without overdrawing anybody. */
  function SafeAmount<E(==)>(mk: Market<E>, vol: map<E, int>): int
    requires Candidates(mk, vol) != []
  {
    Share(vol, RoundRoutes(mk, vol), Chosen(mk, vol))
  }

  /** No id is listed twice in a priority group or in a preference group. */
  ghost predicate DistinctIds(priority: Priority) {
    forall g :: 0 <= g < |priority| ==>
      && (forall i, j :: 0 <= i < j < |priority[g]| ==> priority[g][i].id != priority[g][j].id)
      && (forall i, p :: 0 <= i < |priority[g]| && 0 <= p < |priority[g][i].preferences| ==>
            NoDuplicates(priority[g][i].preferences[p]))
  }

  // ----- how often a priority can join two entities

  /** The first preference group that lists an id. */
  function FirstListing(preferences: seq<seq<string>>, id: string): seq<string> {
    if preferences == [] then []
    else if id in preferences[0] then preferences[0]
    else FirstListing(preferences[1..], id)
  }

  predicate Lists(group: seq<Entry>, id: string) {
    exists i :: 0 <= i < |group| && group[i].id == id
  }

  /** The first priority group with an entry for an id. */
  function FirstListingEntries(priority: Priority, id: string): seq<Entry> {
    if priority == [] then []
    else if Lists(priority[0], id) then priority[0]
    else FirstListingEntries(priority[1..], id)
  }

  /** How often an entry leads from one id to another: as often as its first group for the latter lists it. */
  function EntryLinks(entry: Entry, id1: string, id2: string): nat {
    if entry.id == id1 then multiset(FirstListing(entry.preferences, id2))[id2] else 0
  }

  function GroupLinks(group: seq<Entry>, id1: string, id2: string): nat {
    if group == [] then 0 else GroupLinks(group[..|group| - 1], id1, id2) + EntryLinks(group[|group| - 1], id1, id2)
  }

  function Links(priority: Priority, id1: string, id2: string): nat {
    GroupLinks(FirstListingEntries(priority, id1), id1, id2)
  }

  /** No two ids are linked more than once. */
  ghost predicate Unambiguous(priority: Priority) {
    forall id1, id2 :: Links(priority, id1, id2) <= 1
  }

  /** Two lists of distinct entities without a common member, whose volumes are known. */
  ghost predicate WellFormed<E>(mk: Market<E>, vol: map<E, int>) {
    && NoDuplicates(mk.side1) && NoDuplicates(mk.side2)
    && (forall e | e in mk.side1 :: e !in mk.side2)
    && (forall e | e in mk.side1 :: e in vol) && (forall e | e in mk.side2 :: e in vol)
  }

  /** A market without negative volumes. */
  ghost predicate Valid<E>(mk: Market<E>, vol: map<E, int>) {
    WellFormed(mk, vol) && forall e | e in vol :: 0 <= vol[e]
  }
}
