/** The queue that hands out synchronisation batches with at most one event of each certificate. */
module BatchQueue {
  import opened StableSort
  import opened Sequences
  import opened CertificateEvents
  import opened CertificateStore
  import opened CertificateStoreFacts

  /** The events still to be processed, by certificate. */
  type Queue = map<CertId, seq<Event>>

  // ----- ids in ascending order, the order in which an object's integer keys are visited

  ghost predicate IsLeast(m: CertId, ids: set<CertId>) {
    m in ids && forall x :: x in ids ==> m <= x
  }

  lemma {:induction false} HasLeast(ids: set<CertId>) returns (m: CertId)
    requires ids != {}
    ensures IsLeast(m, ids)
    decreases |ids|
  {
    var x :| x in ids;
    var rest := ids - {x};
    assert ids == rest + {x};
    m := x;
    if rest != {} {
      var n := HasLeast(rest);
      if n < x { m := n; }
    }
  }

  lemma LeastExists(ids: set<CertId>)
    requires ids != {}
    ensures exists m :: IsLeast(m, ids)
  {
    var m := HasLeast(ids);
  }

  ghost function Least(ids: set<CertId>): (m: CertId)
    requires ids != {}
    ensures m in ids && forall x :: x in ids ==> m <= x
  {
    LeastExists(ids);
    var m :| IsLeast(m, ids);
    m
  }

  ghost function Ascending(ids: set<CertId>): (r: seq<CertId>)
    decreases |ids|
  {
    if ids == {} then [] else [Least(ids)] + Ascending(ids - {Least(ids)})
  }

  lemma {:induction false} AscendingLists(ids: set<CertId>)
    ensures forall id :: id in Ascending(ids) <==> id in ids
    ensures NoDuplicates(Ascending(ids))
    decreases |ids|
  {
    hide Least;
    if ids != {} {
      AscendingLists(ids - {Least(ids)});
    }
  }

  lemma {:induction false} AscendingRises(ids: set<CertId>)
    ensures forall i, j :: 0 <= i < j < |Ascending(ids)| ==> Ascending(ids)[i] < Ascending(ids)[j]
    decreases |ids|
  {
    if ids != {} {
      var rest := Ascending(ids - {Least(ids)});
      AscendingRises(ids - {Least(ids)});
      AscendingLists(ids - {Least(ids)});
      forall j | 0 <= j < |rest| ensures Least(ids) < rest[j] {
        assert rest[j] in rest;
      }
    }
  }

  // ----- popping

  function HeadOf(q: Queue, id: CertId): seq<Event> {
    if id in q && q[id] != [] then [q[id][0]] else []
  }

  function Heads(q: Queue, ids: seq<CertId>): seq<Event> {
    if ids == [] then [] else Heads(q, ids[..|ids| - 1]) + HeadOf(q, ids[|ids| - 1])
  }

  ghost function PoppedBatch(q: Queue): seq<Event> {
    Heads(q, Ascending(q.Keys))
  }

  function AfterPop(q: Queue): Queue {
    map id | id in q && q[id] != [] :: q[id][1..]
  }

  predicate IsEmptyQueue(q: Queue) {
    forall id :: id in q ==> q[id] == []
  }

  function QueueOf(events: seq<Event>): Queue {
    GroupByCertificate(SortByTime(events))
  }

  function Waiting(q: Queue, id: CertId): seq<Event> {
    if id in q then q[id] else []
  }

  /** Every event waits under its own certificate. */
  ghost predicate WellQueued(q: Queue) {
    forall id :: id in q ==> forall i :: 0 <= i < |q[id]| ==> q[id][i].certificateId == id
  }

  lemma LogOfHead(q: Queue, other: CertId, id: CertId)
    requires WellQueued(q)
    ensures LogOf(HeadOf(q, other), id) == if other == id then HeadOf(q, id) else []
  {
    if HeadOf(q, other) != [] {
      LogOfAppend([], HeadOf(q, other)[0], id);
      assert [] + HeadOf(q, other) == HeadOf(q, other);
    }
  }

  lemma {:induction false} LogOfHeads(q: Queue, ids: seq<CertId>, id: CertId)
    requires WellQueued(q) && NoDuplicates(ids)
    ensures LogOf(Heads(q, ids), id) == if id in ids then HeadOf(q, id) else []
  {
    hide LogOf, HeadOf, WellQueued;
    if ids == [] {
      LogOfEmpty([], id);
    } else {
      var n := |ids| - 1;
      LogOfHeads(q, ids[..n], id);
      LogOfHead(q, ids[n], id);
      LogOfConcat(Heads(q, ids[..n]), HeadOf(q, ids[n]), id);
      assert ids == ids[..n] + [ids[n]];
    }
  }

  lemma {:induction false} HeadsAreHeads(q: Queue, ids: seq<CertId>)
    requires WellQueued(q)
    ensures forall e :: e in Heads(q, ids) ==> HeadOf(q, e.certificateId) == [e]
  {
    if ids != [] {
      HeadsAreHeads(q, ids[..|ids| - 1]);
    }
  }

  /** A popped batch holds the first waiting event of every certificate, and no other event. */
  lemma PopTakesHeads(q: Queue, id: CertId)
    requires WellQueued(q)
    ensures LogOf(PoppedBatch(q), id) == HeadOf(q, id)
    ensures forall e :: e in PoppedBatch(q) ==> HeadOf(q, e.certificateId) == [e]
    ensures Waiting(q, id) == HeadOf(q, id) + Waiting(AfterPop(q), id)
  {
    hide LogOf, Heads, Ascending;
    AscendingLists(q.Keys);
    LogOfHeads(q, Ascending(q.Keys), id);
    HeadsAreHeads(q, Ascending(q.Keys));
  }

  lemma {:induction false} HeadsAreOf(q: Queue, ids: seq<CertId>)
    requires WellQueued(q)
    ensures forall e :: e in Heads(q, ids) ==> e.certificateId in ids
  {
    if ids != [] {
      HeadsAreOf(q, ids[..|ids| - 1]);
    }
  }

  lemma {:induction false} HeadsRise(q: Queue, ids: seq<CertId>)
    requires WellQueued(q) && forall i, j :: 0 <= i < j < |ids| ==> ids[i] < ids[j]
    ensures forall i, j :: 0 <= i < j < |Heads(q, ids)| ==>
              Heads(q, ids)[i].certificateId < Heads(q, ids)[j].certificateId
  {
    if ids != [] {
      var n := |ids| - 1;
      var before, head := Heads(q, ids[..n]), HeadOf(q, ids[n]);
      HeadsRise(q, ids[..n]);
      HeadsAreOf(q, ids[..n]);
      assert Heads(q, ids) == before + head;
      forall i | 0 <= i < |before| ensures before[i].certificateId < ids[n] {
        assert before[i].certificateId in ids[..n];
      }
    }
  }

  /** A batch lists the certificates in ascending order. */
  lemma PopAscends(q: Queue)
    requires WellQueued(q)
    ensures forall i, j :: 0 <= i < j < |PoppedBatch(q)| ==>
              PoppedBatch(q)[i].certificateId < PoppedBatch(q)[j].certificateId
  {
    AscendingRises(q.Keys);
    HeadsRise(q, Ascending(q.Keys));
  }

  lemma PopKeepsQueue(q: Queue)
    requires WellQueued(q)
    ensures WellQueued(AfterPop(q))
  {
    forall i, k | i in AfterPop(q) && 0 <= k < |AfterPop(q)[i]|
      ensures AfterPop(q)[i][k].certificateId == i
    {
      assert AfterPop(q)[i][k] == q[i][k + 1];
    }
  }

  // ----- draining

  /** The length of the longest list that waits in the queue for one of the given certificates. */
  function LongestAmong(q: Queue, ids: seq<CertId>): nat {
    if ids == [] then 0
    else
      var before := LongestAmong(q, ids[..|ids| - 1]);
      var last := |Waiting(q, ids[|ids| - 1])|;
      if before < last then last else before
  }

  ghost function Longest(q: Queue): nat {
    LongestAmong(q, Ascending(q.Keys))
  }

  lemma {:induction false} LongestIsMaximum(q: Queue, ids: seq<CertId>)
    ensures forall id :: id in ids ==> |Waiting(q, id)| <= LongestAmong(q, ids)
    ensures LongestAmong(q, ids) > 0 ==> exists id :: id in ids && |Waiting(q, id)| == LongestAmong(q, ids)
  {
    if ids != [] {
      var n := |ids| - 1;
      LongestIsMaximum(q, ids[..n]);
      assert ids == ids[..n] + [ids[n]];
    }
  }

  lemma LongestOf(q: Queue, n: nat)
    requires forall id :: |Waiting(q, id)| <= n
    requires n > 0 ==> exists id :: |Waiting(q, id)| == n
    ensures Longest(q) == n
  {
    hide Ascending;
    AscendingLists(q.Keys);
    LongestIsMaximum(q, Ascending(q.Keys));
    if n > 0 {
      var id :| |Waiting(q, id)| == n;
      assert id in Ascending(q.Keys);
    }
  }

  lemma LongestBounds(q: Queue)
    ensures forall id :: |Waiting(q, id)| <= Longest(q)
    ensures Longest(q) > 0 ==> exists id :: |Waiting(q, id)| == Longest(q)
    ensures Longest(q) == 0 <==> IsEmptyQueue(q)
  {
    hide Ascending;
    AscendingLists(q.Keys);
    LongestIsMaximum(q, Ascending(q.Keys));
    forall id ensures |Waiting(q, id)| <= Longest(q) {
      if id in q { assert id in Ascending(q.Keys); }
    }
    if Longest(q) == 0 {
      forall id | id in q ensures q[id] == [] { assert |Waiting(q, id)| <= Longest(q); }
    }
  }

  /** Popping shortens the longest waiting list by one. */
  lemma PopShortens(q: Queue)
    requires !IsEmptyQueue(q)
    ensures Longest(AfterPop(q)) == Longest(q) - 1
  {
    LongestBounds(q);
    forall id ensures |Waiting(AfterPop(q), id)| == if |Waiting(q, id)| == 0 then 0 else |Waiting(q, id)| - 1 { }
    var id :| |Waiting(q, id)| == Longest(q);
    assert |Waiting(AfterPop(q), id)| == Longest(q) - 1;
    LongestOf(AfterPop(q), Longest(q) - 1);
  }

  /** All batches that popping until the queue is empty returns. */
  ghost function Drain(q: Queue): seq<seq<Event>>
    decreases Longest(q)
  {
    if IsEmptyQueue(q) then []
    else
      PopShortens(q);
      [PoppedBatch(q)] + Drain(AfterPop(q))
  }

  function Joined(batches: seq<seq<Event>>): seq<Event> {
    if batches == [] then [] else batches[0] + Joined(batches[1..])
  }

  /**
   * Draining returns, for every certificate, its waiting events in their order, each once; every
   * batch has at most one event of a certificate; and there are as many batches as the longest
   * waiting list has events.
   */
  lemma {:induction false} DrainReturnsAll(q: Queue, id: CertId)
    requires WellQueued(q)
    ensures LogOf(Joined(Drain(q)), id) == Waiting(q, id)
    ensures forall i :: 0 <= i < |Drain(q)| ==> |LogOf(Drain(q)[i], id)| <= 1
    ensures |Drain(q)| == Longest(q)
    decreases Longest(q)
  {
    LongestBounds(q);
    if !IsEmptyQueue(q) {
      PopShortens(q);
      PopTakesHeads(q, id);
      PopKeepsQueue(q);
      DrainReturnsAll(AfterPop(q), id);
      hide LogOf, PoppedBatch, AfterPop, WellQueued;
      LogOfConcat(PoppedBatch(q), Joined(Drain(AfterPop(q))), id);
      assert Drain(q)[1..] == Drain(AfterPop(q));
    }
  }

  /** A queue built from events holds each certificate's events in the order of their times. */
  lemma QueueOfEvents(events: seq<Event>, id: CertId)
    ensures WellQueued(QueueOf(events))
    ensures Waiting(QueueOf(events), id) == LogOf(SortByTime(events), id)
    ensures Sorted(Waiting(QueueOf(events), id))
  {
    var sorted := SortByTime(events);
    SortIsSort(events);
    LogOfSorted(sorted, id);
    LogOfEmpty(sorted, id);
    forall other | other in QueueOf(events)
      ensures forall i :: 0 <= i < |QueueOf(events)[other]| ==> QueueOf(events)[other][i].certificateId == other
    {
      LogOfSorted(sorted, other);
    }
  }

  /** Draining the queue of some events returns each certificate's events, sorted by time, exactly once. */
  lemma DrainSortsEvents(events: seq<Event>, id: CertId)
    ensures LogOf(Joined(Drain(QueueOf(events))), id) == LogOf(SortByTime(events), id)
    ensures multiset(LogOf(Joined(Drain(QueueOf(events))), id)) == multiset(LogOf(events, id))
    ensures Sorted(LogOf(Joined(Drain(QueueOf(events))), id))
  {
    QueueOfEvents(events, id);
    DrainReturnsAll(QueueOf(events), id);
    SortKeepsCertificates(events, id);
  }

  lemma {:induction false} SortKeepsCertificates(events: seq<Event>, id: CertId)
    ensures multiset(LogOf(SortByTime(events), id)) == multiset(LogOf(events, id))
  {
    if events != [] {
      var n := |events| - 1;
      SortKeepsCertificates(events[..n], id);
      InsertKeepsCertificates(SortByTime(events[..n]), events[n], id);
    }
  }

  lemma {:induction false} InsertKeepsCertificates(s: seq<Event>, e: Event, id: CertId)
    ensures multiset(LogOf(Insert(CreatedAt, s, e), id)) ==
            multiset(LogOf(s, id)) + (if e.certificateId == id then multiset{e} else multiset{})
  {
    if s == [] || s[|s| - 1].createdAt <= e.createdAt {
      LogOfAppend(s, e, id);
    } else {
      var n := |s| - 1;
      InsertKeepsCertificates(s[..n], e, id);
      LogOfAppend(Insert(CreatedAt, s[..n], e), s[n], id);
    }
  }
}
