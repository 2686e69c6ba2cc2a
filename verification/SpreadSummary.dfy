/** The summed matches, told without the tables that they are computed with: which pairs, in which order, with what. */
module SpreadSummary {
  import opened Sequences
  import opened SpreadRound
  import opened SpreadTally

  /** The first entities of some matches, in the order in which they first occur. */
  function Firsts<E(==)>(ms: seq<Match<E>>): seq<E> {
    if ms == [] then []
    else
      var before, m := Firsts(ms[..|ms| - 1]), ms[|ms| - 1];
      before + if m.first in before then [] else [m.first]
  }

  /** The entities that one entity is matched with, in the order in which they first occur. */
  function Seconds<E(==)>(ms: seq<Match<E>>, a: E): seq<E> {
    if ms == [] then []
    else
      var before, m := Seconds(ms[..|ms| - 1], a), ms[|ms| - 1];
      before + if m.first != a || m.second in before then [] else [m.second]
  }

  function SummedWith<E(==)>(ms: seq<Match<E>>, a: E, others: seq<E>): seq<Match<E>> {
    if others == [] then [] else [Match(a, others[0], PairTotal(ms, a, others[0]))] + SummedWith(ms, a, others[1..])
  }

  function SummedOf<E(==)>(ms: seq<Match<E>>, firsts: seq<E>): seq<Match<E>> {
    if firsts == [] then [] else SummedWith(ms, firsts[0], Seconds(ms, firsts[0])) + SummedOf(ms, firsts[1..])
  }

  lemma StepOfLists<E>(ms: seq<Match<E>>, m: Match<E>, a: E, b: E)
    ensures Firsts(ms + [m]) == Firsts(ms) + if m.first in Firsts(ms) then [] else [m.first]
    ensures Seconds(ms + [m], a) ==
            Seconds(ms, a) + if m.first != a || m.second in Seconds(ms, a) then [] else [m.second]
    ensures PairTotal(ms + [m], a, b) == PairTotal(ms, a, b) + PairOf(m, a, b)
  {
    assert (ms + [m])[..|ms|] == ms;
  }

  lemma {:induction false} ListsAreDistinct<E>(ms: seq<Match<E>>, a: E)
    ensures NoDuplicates(Firsts(ms)) && NoDuplicates(Seconds(ms, a))
    ensures a !in Firsts(ms) ==> Seconds(ms, a) == []
  {
    if ms != [] {
      ListsAreDistinct(ms[..|ms| - 1], a);
    }
  }

  lemma {:induction false} UnseenTotal<E>(ms: seq<Match<E>>, a: E, b: E)
    requires b !in Seconds(ms, a)
    ensures PairTotal(ms, a, b) == 0
  {
    if ms != [] {
      UnseenTotal(ms[..|ms| - 1], a, b);
    }
  }

  // ----- the tables agree with the lists

  lemma {:induction false} AddCellAt<E>(cells: seq<(E, int)>, e: E, volume: int, k: nat)
    requires NoDuplicates(CellKeys(cells)) && k < |AddCell(cells, e, volume)|
    ensures k < |cells| ==>
              AddCell(cells, e, volume)[k] == (cells[k].0, cells[k].1 + if cells[k].0 == e then volume else 0)
    ensures k >= |cells| ==> k == |cells| && AddCell(cells, e, volume)[k] == (e, volume)
  {
    if cells != [] {
      UnwindCellsShape(e, cells);
      assert CellKeys(cells)[1..] == CellKeys(cells[1..]);
      if cells[0].0 != e && k > 0 {
        AddCellAt(cells[1..], e, volume, k - 1);
      } else if k > 0 && k < |cells| {
        assert CellKeys(cells)[0] != CellKeys(cells)[k];
      }
    }
  }

  lemma {:induction false} AddMatchAt<E>(table: Table<E>, m: Match<E>, i: nat)
    requires NoDuplicates(RowKeys(table)) && i < |AddMatch(table, m)|
    ensures i < |table| ==>
              AddMatch(table, m)[i] == if table[i].first == m.first
                                       then Row(m.first, AddCell(table[i].cells, m.second, m.volume)) else table[i]
    ensures i >= |table| ==>
              i == |table| && AddMatch(table, m)[i] == Row(m.first, AddCell([], m.second, m.volume))
              && m.first !in RowKeys(table)
  {
    if table != [] {
      RowKeysAt(table);
      assert RowKeys(table)[1..] == RowKeys(table[1..]);
      if table[0].first != m.first && i > 0 {
        AddMatchAt(table[1..], m, i - 1);
      } else if i > 0 && i < |table| {
        assert RowKeys(table)[0] != RowKeys(table)[i];
      }
    }
  }

  lemma {:induction false} RowKeysAt<E>(table: Table<E>)
    ensures |RowKeys(table)| == |table| && forall i :: 0 <= i < |table| ==> RowKeys(table)[i] == table[i].first
  {
    if table != [] {
      RowKeysAt(table[1..]);
    }
  }

  ghost predicate RowFits<E>(ms: seq<Match<E>>, row: Row<E>) {
    && CellKeys(row.cells) == Seconds(ms, row.first)
    && forall k :: 0 <= k < |row.cells| ==> row.cells[k].1 == PairTotal(ms, row.first, row.cells[k].0)
  }

  ghost predicate Fits<E>(ms: seq<Match<E>>, table: Table<E>) {
    RowKeys(table) == Firsts(ms) && forall i :: 0 <= i < |table| ==> RowFits(ms, table[i])
  }

  /** A match is added to the row of its first entity, which may be a new one without any cells. */
  lemma AddToRow<E>(ms: seq<Match<E>>, m: Match<E>, row: Row<E>)
    requires RowFits(ms, row) && row.first == m.first
    ensures RowFits(ms + [m], Row(m.first, AddCell(row.cells, m.second, m.volume)))
  {
    var cells := AddCell(row.cells, m.second, m.volume);
    ListsAreDistinct(ms, m.first);
    AddCellKeys(row.cells, m.second, m.volume);
    StepOfLists(ms, m, m.first, m.first);
    UnwindCellsShape(m.first, row.cells);
    hide AddCell, Seconds, PairTotal;
    forall k | 0 <= k < |cells| ensures cells[k].1 == PairTotal(ms + [m], m.first, cells[k].0) {
      AddCellAt(row.cells, m.second, m.volume, k);
      StepOfLists(ms, m, m.first, cells[k].0);
      if k == |row.cells| {
        NewCell(ms, m, row);
      }
    }
  }

  lemma NewCell<E>(ms: seq<Match<E>>, m: Match<E>, row: Row<E>)
    requires RowFits(ms, row) && row.first == m.first && |AddCell(row.cells, m.second, m.volume)| > |row.cells|
    ensures PairTotal(ms, m.first, m.second) == 0
  {
    AddCellKeys(row.cells, m.second, m.volume);
    UnwindCellsShape(m.first, row.cells);
    UnwindCellsShape(m.first, AddCell(row.cells, m.second, m.volume));
    UnseenTotal(ms, m.first, m.second);
  }

  lemma OtherRow<E>(ms: seq<Match<E>>, m: Match<E>, row: Row<E>)
    requires RowFits(ms, row) && row.first != m.first
    ensures RowFits(ms + [m], row)
  {
    forall k | 0 <= k < |row.cells| ensures row.cells[k].1 == PairTotal(ms + [m], row.first, row.cells[k].0) {
      StepOfLists(ms, m, row.first, row.cells[k].0);
    }
    StepOfLists(ms, m, row.first, m.first);
  }

  lemma StepFits<E>(ms: seq<Match<E>>, m: Match<E>, table: Table<E>, i: nat)
    requires Fits(ms, table) && i < |AddMatch(table, m)|
    ensures RowFits(ms + [m], AddMatch(table, m)[i])
  {
    hide AddMatch, RowFits, Firsts, Seconds, AddCell, NoDuplicates;
    ListsAreDistinct(ms, m.first);
    AddMatchAt(table, m, i);
    if i == |table| {
      EmptyRowFits(ms, m.first);
      AddToRow(ms, m, Row(m.first, []));
    } else if table[i].first == m.first {
      AddToRow(ms, m, table[i]);
    } else {
      OtherRow(ms, m, table[i]);
    }
  }

  lemma {:induction false} TallyFits<E>(ms: seq<Match<E>>)
    ensures Fits(ms, Tally(ms))
  {
    if ms != [] {
      hide AddMatch, RowFits, Seconds, AddCell, NoDuplicates;
      var n := |ms| - 1;
      var m, table := ms[n], Tally(ms[..n]);
      TallyFits(ms[..n]);
      assert ms == ms[..n] + [m];
      StepOfLists(ms[..n], m, m.first, m.first);
      AddMatchKeys(table, m);
      forall i: nat | i < |AddMatch(table, m)| ensures RowFits(ms, AddMatch(table, m)[i]) {
        StepFits(ms[..n], m, table, i);
      }
    }
  }

  lemma EmptyRowFits<E>(ms: seq<Match<E>>, a: E)
    requires a !in Firsts(ms)
    ensures RowFits(ms, Row(a, []))
  {
    ListsAreDistinct(ms, a);
  }

  lemma {:induction false} UnwindRow<E>(ms: seq<Match<E>>, a: E, cells: seq<(E, int)>)
    requires forall k :: 0 <= k < |cells| ==> cells[k].1 == PairTotal(ms, a, cells[k].0)
    ensures UnwindCells(a, cells) == SummedWith(ms, a, CellKeys(cells))
  {
    if cells != [] {
      UnwindRow(ms, a, cells[1..]);
      assert CellKeys(cells)[1..] == CellKeys(cells[1..]);
    }
  }

  lemma {:induction false} UnwindRows<E>(ms: seq<Match<E>>, table: Table<E>)
    requires forall i :: 0 <= i < |table| ==> RowFits(ms, table[i])
    ensures Unwind(table) == SummedOf(ms, RowKeys(table))
  {
    if table != [] {
      assert RowFits(ms, table[0]);
      UnwindRow(ms, table[0].first, table[0].cells);
      UnwindRows(ms, table[1..]);
      assert RowKeys(table)[1..] == RowKeys(table[1..]);
    }
  }

  /**
   * The summed matches are, for each first entity in the order of their first matches and for each entity
   * that it is matched with in the same order, the total of their matches, whatever the volumes are.
   */
  lemma SummaryIsExact<E>(ms: seq<Match<E>>)
    ensures Unwind(Tally(ms)) == SummedOf(ms, Firsts(ms))
    ensures NoDuplicates(Firsts(ms)) && forall a :: NoDuplicates(Seconds(ms, a))
  {
    TallyFits(ms);
    UnwindRows(ms, Tally(ms));
    forall a ensures NoDuplicates(Firsts(ms)) && NoDuplicates(Seconds(ms, a)) { ListsAreDistinct(ms, a); }
  }

  /** The matches of a run are listed round by round. */
  lemma {:induction false} RoundsInOrder<E>(rounds: seq<seq<Match<E>>>, k: nat)
    requires k < |rounds|
    ensures Flat(rounds[..k]) + rounds[k] <= Flat(rounds)
  {
    var n := |rounds| - 1;
    if k < n {
      RoundsInOrder(rounds[..n], k);
      assert rounds[..n][..k] == rounds[..k];
    }
  }
}
