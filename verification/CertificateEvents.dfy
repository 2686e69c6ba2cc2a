/** The events of a certificate, in the order of their times. */
module CertificateEvents {
  import opened Sequences
  import opened StableSort

  type CertId = nat

  /** Addresses are opaque; several spellings denote the zero address. */
  datatype Address = Zero(spelling: nat) | Account(name: nat)

  datatype Payload =
    | Issued(toAddress: Address, issued: int, details: string)
    | Transferred(fromAddress: Address, recipient: Address, transferred: int)
    | Claimed(forAddress: Address, claimed: int)
    | IssuancePersisted(blockchainCertificateId: int, persistedEventId: nat, transactionHash: string)
    | TransferPersisted(persistedEventId: nat, transactionHash: string)
    | ClaimPersisted(persistedEventId: nat, transactionHash: string)
    | PersistError(persistedEventId: nat)

  datatype Event = Event(id: nat, certificateId: CertId, createdAt: int, payload: Payload)

  /** Events that have to be written to the blockchain. */
  predicate ToSynchronize(e: Event) {
    e.payload.Issued? || e.payload.Transferred? || e.payload.Claimed?
  }

  /** Events that record a successful write to the blockchain. */
  predicate RecordsSuccess(e: Event) {
    e.payload.IssuancePersisted? || e.payload.TransferPersisted? || e.payload.ClaimPersisted?
  }

  /** Events that update the attempt of another event. */
  predicate IsPersistedEvent(e: Event) {
    RecordsSuccess(e) || e.payload.PersistError?
  }

  // ----- the order of times

  function CreatedAt(e: Event): int {
    e.createdAt
  }

  function SortByTime(s: seq<Event>): (r: seq<Event>)
    ensures |r| == |s|
  {
    Sort(CreatedAt, s)
  }

  ghost predicate Sorted(s: seq<Event>) {
    forall i, j :: 0 <= i < j < |s| ==> s[i].createdAt <= s[j].createdAt
  }

  ghost predicate DistinctTimes(s: seq<Event>) {
    forall i, j :: 0 <= i < j < |s| ==> s[i].createdAt != s[j].createdAt
  }

  /** Sorting permutes the events and orders them by time. */
  lemma SortIsSort(s: seq<Event>)
    ensures multiset(SortByTime(s)) == multiset(s)
    ensures Sorted(SortByTime(s))
  {
    SortIsOrdered(CreatedAt, s);
    hide Sort;
    var sorted := SortByTime(s);
    forall i, j | 0 <= i < j < |sorted| ensures sorted[i].createdAt <= sorted[j].createdAt {
      assert CreatedAt(sorted[i]) <= CreatedAt(sorted[j]);
    }
  }

  /** Events already in order are left as they are, whatever ties there are among them. */
  lemma SortOfSorted(s: seq<Event>)
    requires Sorted(s)
    ensures SortByTime(s) == s
  {
    SortOfOrdered(CreatedAt, s);
  }

  /** With distinct times, the sorted log does not depend on the order in which the events are listed. */
  lemma SortForgetsOrder(a: seq<Event>, b: seq<Event>)
    requires multiset(a) == multiset(b) && DistinctTimes(a)
    ensures SortByTime(a) == SortByTime(b)
  {
    SortForgetsListing(CreatedAt, a, b);
  }

  lemma SumOfSorted(w: Event -> int, s: seq<Event>)
    ensures SumOf(w, SortByTime(s)) == SumOf(w, s)
  {
    SumOfSort(CreatedAt, w, s);
  }
}
