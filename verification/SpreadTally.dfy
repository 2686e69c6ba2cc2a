/**
 * Summing the matches of a run by pair of entities.  The two nested tables are kept as
 * association lists in insertion order.
 */
module SpreadTally {
  import opened Sequences
  import opened SpreadRound
  import opened SpreadRun

  datatype Row<E> = Row(first: E, cells: seq<(E, int)>)

  type Table<E> = seq<Row<E>>

  /** The volume of all matches between two given entities. */
  function PairTotal<E(==)>(ms: seq<Match<E>>, a: E, b: E): int {
    if ms == [] then 0
    else
      var n := |ms| - 1;
      PairTotal(ms[..n], a, b) + if ms[n].first == a && ms[n].second == b then ms[n].volume else 0
  }

  function AddCell<E(==)>(cells: seq<(E, int)>, e: E, volume: int): seq<(E, int)> {
    if cells == [] then [(e, volume)]
    else if cells[0].0 == e then [(e, cells[0].1 + volume)] + cells[1..]
    else [cells[0]] + AddCell(cells[1..], e, volume)
  }

  function AddMatch<E(==)>(table: Table<E>, m: Match<E>): Table<E> {
    if table == [] then [Row(m.first, AddCell([], m.second, m.volume))]
    else if table[0].first == m.first then [Row(m.first, AddCell(table[0].cells, m.second, m.volume))] + table[1..]
    else [table[0]] + AddMatch(table[1..], m)
  }

  function UnwindCells<E>(first: E, cells: seq<(E, int)>): seq<Match<E>> {
    if cells == [] then [] else [Match(first, cells[0].0, cells[0].1)] + UnwindCells(first, cells[1..])
  }

  function Unwind<E>(table: Table<E>): seq<Match<E>> {
    if table == [] then [] else UnwindCells(table[0].first, table[0].cells) + Unwind(table[1..])
  }

  function Tally<E(==)>(ms: seq<Match<E>>): Table<E> {
    if ms == [] then [] else AddMatch(Tally(ms[..|ms| - 1]), ms[|ms| - 1])
  }

  function Flat<E>(rounds: seq<seq<Match<E>>>): seq<Match<E>> {
    if rounds == [] then [] else Flat(rounds[..|rounds| - 1]) + rounds[|rounds| - 1]
  }

  // ----- totals over concatenations

  lemma {:induction false} TotalsConcat<E>(r: seq<Match<E>>, s: seq<Match<E>>, a: E, b: E)
    ensures PairTotal(r + s, a, b) == PairTotal(r, a, b) + PairTotal(s, a, b)
    ensures Drawn(r + s, a) == Drawn(r, a) + Drawn(s, a)
  {
    if s == [] {
      assert r + s == r;
    } else {
      var n := |s| - 1;
      TotalsConcat(r, s[..n], a, b);
      assert (r + s)[..|r| + n] == r + s[..n];
    }
  }

  /** The flattened matches of a run draw from an entity what its rounds drew together. */
  lemma {:induction false} FlatDraws<E>(rounds: seq<seq<Match<E>>>, e: E)
    ensures Drawn(Flat(rounds), e) == DrawnIn(rounds, e)
  {
    if rounds != [] {
      var n := |rounds| - 1;
      FlatDraws(rounds[..n], e);
      TotalsConcat(Flat(rounds[..n]), rounds[n], e, e);
    }
  }

  ghost function PairOf<E>(m: Match<E>, a: E, b: E): int {
    if m.first == a && m.second == b then m.volume else 0
  }

  ghost function DrawOf<E>(m: Match<E>, e: E): int {
    (if m.first == e then m.volume else 0) + (if m.second == e then m.volume else 0)
  }

  lemma Single<E>(m: Match<E>, a: E, b: E)
    ensures PairTotal([m], a, b) == PairOf(m, a, b)
    ensures Drawn([m], a) == DrawOf(m, a)
  {
  }

  lemma {:induction false} AddCellTotals<E>(first: E, cells: seq<(E, int)>, e: E, volume: int, a: E, b: E)
    ensures var before, after := UnwindCells(first, cells), UnwindCells(first, AddCell(cells, e, volume));
            && PairTotal(after, a, b) == PairTotal(before, a, b) + PairOf(Match(first, e, volume), a, b)
            && Drawn(after, a) == Drawn(before, a) + DrawOf(Match(first, e, volume), a)
  {
    if cells == [] {
      Single(Match(first, e, volume), a, b);
    } else {
      var rest := UnwindCells(first, cells[1..]);
      TotalsConcat([Match(first, cells[0].0, cells[0].1)], rest, a, b);
      Single(Match(first, cells[0].0, cells[0].1), a, b);
      if cells[0].0 == e {
        TotalsConcat([Match(first, e, cells[0].1 + volume)], rest, a, b);
        Single(Match(first, e, cells[0].1 + volume), a, b);
        assert AddCell(cells, e, volume)[1..] == cells[1..];
      } else {
        AddCellTotals(first, cells[1..], e, volume, a, b);
        TotalsConcat([Match(first, cells[0].0, cells[0].1)], UnwindCells(first, AddCell(cells[1..], e, volume)), a, b);
        assert AddCell(cells, e, volume)[1..] == AddCell(cells[1..], e, volume);
      }
    }
  }

  lemma {:induction false} AddMatchTotals<E>(table: Table<E>, m: Match<E>, a: E, b: E)
    ensures PairTotal(Unwind(AddMatch(table, m)), a, b) == PairTotal(Unwind(table), a, b) + PairOf(m, a, b)
    ensures Drawn(Unwind(AddMatch(table, m)), a) == Drawn(Unwind(table), a) + DrawOf(m, a)
  {
    if table == [] {
      AddCellTotals(m.first, [], m.second, m.volume, a, b);
      assert Unwind(AddMatch(table, m)) == UnwindCells(m.first, AddCell([], m.second, m.volume));
    } else {
      var cells := UnwindCells(table[0].first, table[0].cells);
      TotalsConcat(cells, Unwind(table[1..]), a, b);
      if table[0].first == m.first {
        var cells' := AddCell(table[0].cells, m.second, m.volume);
        AddCellTotals(m.first, table[0].cells, m.second, m.volume, a, b);
        TotalsConcat(UnwindCells(m.first, cells'), Unwind(table[1..]), a, b);
        assert AddMatch(table, m)[1..] == table[1..];
      } else {
        AddMatchTotals(table[1..], m, a, b);
        TotalsConcat(cells, Unwind(AddMatch(table[1..], m)), a, b);
        assert AddMatch(table, m)[1..] == AddMatch(table[1..], m);
      }
    }
  }

  /** Summing by pairs changes neither a pair's total volume nor an entity's. */
  lemma {:induction false} TallyKeepsTotals<E>(ms: seq<Match<E>>, a: E, b: E)
    ensures PairTotal(Unwind(Tally(ms)), a, b) == PairTotal(ms, a, b)
    ensures Drawn(Unwind(Tally(ms)), a) == Drawn(ms, a)
  {
    if ms != [] {
      var n := |ms| - 1;
      TallyKeepsTotals(ms[..n], a, b);
      AddMatchTotals(Tally(ms[..n]), ms[n], a, b);
    }
  }

  // ----- each pair once, with a positive volume

  ghost predicate DistinctPairs<E>(ms: seq<Match<E>>) {
    forall i, j :: 0 <= i < j < |ms| ==> ms[i].first != ms[j].first || ms[i].second != ms[j].second
  }

  ghost predicate Positive<E>(ms: seq<Match<E>>) {
    forall i :: 0 <= i < |ms| ==> 0 < ms[i].volume
  }

  ghost function CellKeys<E>(cells: seq<(E, int)>): seq<E> {
    if cells == [] then [] else [cells[0].0] + CellKeys(cells[1..])
  }

  ghost function RowKeys<E>(table: Table<E>): seq<E> {
    if table == [] then [] else [table[0].first] + RowKeys(table[1..])
  }

  ghost predicate GoodCells<E>(cells: seq<(E, int)>) {
    && NoDuplicates(CellKeys(cells))
    && forall i :: 0 <= i < |cells| ==> 0 < cells[i].1
  }

  ghost predicate GoodTable<E>(table: Table<E>) {
    && NoDuplicates(RowKeys(table))
    && forall i :: 0 <= i < |table| ==> GoodCells(table[i].cells)
  }

  /** Adding to a table keeps its keys and appends the new one, if there is one, at the end. */
  lemma {:induction false} AddCellKeys<E>(cells: seq<(E, int)>, e: E, volume: int)
    ensures CellKeys(AddCell(cells, e, volume)) == CellKeys(cells) + if e in CellKeys(cells) then [] else [e]
  {
    if cells != [] {
      AddCellKeys(cells[1..], e, volume);
      if cells[0].0 == e {
        assert AddCell(cells, e, volume)[1..] == cells[1..];
      } else {
        assert AddCell(cells, e, volume)[1..] == AddCell(cells[1..], e, volume);
      }
    }
  }

  lemma {:induction false} AddCellPositive<E>(cells: seq<(E, int)>, e: E, volume: int)
    requires forall i :: 0 <= i < |cells| ==> 0 < cells[i].1
    requires 0 < volume
    ensures forall i :: 0 <= i < |AddCell(cells, e, volume)| ==> 0 < AddCell(cells, e, volume)[i].1
  {
    if cells != [] && cells[0].0 != e {
      AddCellPositive(cells[1..], e, volume);
    }
  }

  lemma AddCellGood<E>(cells: seq<(E, int)>, e: E, volume: int)
    requires GoodCells(cells) && 0 < volume
    ensures GoodCells(AddCell(cells, e, volume))
  {
    AddCellKeys(cells, e, volume);
    AddCellPositive(cells, e, volume);
    if e !in CellKeys(cells) {
      NoDuplicatesConcat(CellKeys(cells), [e]);
    }
  }

  lemma {:induction false} AddMatchKeys<E>(table: Table<E>, m: Match<E>)
    ensures RowKeys(AddMatch(table, m)) == RowKeys(table) + if m.first in RowKeys(table) then [] else [m.first]
  {
    if table != [] {
      AddMatchKeys(table[1..], m);
      if table[0].first == m.first {
        assert AddMatch(table, m)[1..] == table[1..];
      } else {
        assert AddMatch(table, m)[1..] == AddMatch(table[1..], m);
      }
    }
  }

  lemma {:induction false} AddMatchCells<E>(table: Table<E>, m: Match<E>)
    requires forall i :: 0 <= i < |table| ==> GoodCells(table[i].cells)
    requires 0 < m.volume
    ensures forall i :: 0 <= i < |AddMatch(table, m)| ==> GoodCells(AddMatch(table, m)[i].cells)
  {
    if table == [] {
      AddCellGood([], m.second, m.volume);
    } else if table[0].first == m.first {
      AddCellGood(table[0].cells, m.second, m.volume);
    } else {
      AddMatchCells(table[1..], m);
    }
  }

  lemma {:induction false} TallyIsGood<E>(ms: seq<Match<E>>)
    requires Positive(ms)
    ensures GoodTable(Tally(ms))
  {
    if ms != [] {
      var n := |ms| - 1;
      TallyIsGood(ms[..n]);
      AddMatchKeys(Tally(ms[..n]), ms[n]);
      AddMatchCells(Tally(ms[..n]), ms[n]);
      if ms[n].first !in RowKeys(Tally(ms[..n])) {
        NoDuplicatesConcat(RowKeys(Tally(ms[..n])), [ms[n].first]);
      }
    }
  }

  lemma {:induction false} UnwindCellsShape<E>(first: E, cells: seq<(E, int)>)
    ensures |UnwindCells(first, cells)| == |cells| == |CellKeys(cells)|
    ensures forall i :: 0 <= i < |cells| ==>
              UnwindCells(first, cells)[i] == Match(first, cells[i].0, cells[i].1) && CellKeys(cells)[i] == cells[i].0
  {
    if cells != [] {
      UnwindCellsShape(first, cells[1..]);
    }
  }

  lemma {:induction false} UnwindGood<E>(table: Table<E>)
    requires GoodTable(table)
    ensures DistinctPairs(Unwind(table)) && Positive(Unwind(table))
    ensures forall i :: 0 <= i < |Unwind(table)| ==> Unwind(table)[i].first in RowKeys(table)
  {
    if table != [] {
      var cells := UnwindCells(table[0].first, table[0].cells);
      var rest := Unwind(table[1..]);
      UnwindCellsShape(table[0].first, table[0].cells);
      assert RowKeys(table)[1..] == RowKeys(table[1..]);
      UnwindGood(table[1..]);
      forall i | 0 <= i < |rest| ensures rest[i].first != table[0].first {
        var k :| 0 <= k < |RowKeys(table[1..])| && RowKeys(table[1..])[k] == rest[i].first;
        assert RowKeys(table)[k + 1] == rest[i].first && RowKeys(table)[0] == table[0].first;
      }
      assert GoodCells(table[0].cells);
    }
  }

  /** The summed matches: every pair once, with a positive volume that is the pair's total. */
  lemma TallySumsPairs<E>(ms: seq<Match<E>>)
    requires Positive(ms)
    ensures DistinctPairs(Unwind(Tally(ms))) && Positive(Unwind(Tally(ms)))
    ensures forall i :: 0 <= i < |Unwind(Tally(ms))| ==>
              var m := Unwind(Tally(ms))[i]; m.volume == PairTotal(ms, m.first, m.second)
  {
    TallyIsGood(ms);
    UnwindGood(Tally(ms));
    forall i | 0 <= i < |Unwind(Tally(ms))|
      ensures var m := Unwind(Tally(ms))[i]; m.volume == PairTotal(ms, m.first, m.second)
    {
      var m := Unwind(Tally(ms))[i];
      TallyKeepsTotals(ms, m.first, m.second);
      DistinctPairTotal(Unwind(Tally(ms)), i);
    }
  }

  lemma {:induction false} DistinctPairTotal<E>(ms: seq<Match<E>>, i: nat)
    requires DistinctPairs(ms) && i < |ms|
    ensures PairTotal(ms, ms[i].first, ms[i].second) == ms[i].volume
  {
    var n := |ms| - 1;
    if i < n {
      DistinctPairTotal(ms[..n], i);
    } else {
      AbsentPairTotal(ms[..n], ms[n].first, ms[n].second);
    }
  }

  lemma {:induction false} AbsentPairTotal<E>(ms: seq<Match<E>>, a: E, b: E)
    requires forall i :: 0 <= i < |ms| ==> ms[i].first != a || ms[i].second != b
    ensures PairTotal(ms, a, b) == 0
  {
    if ms != [] {
      AbsentPairTotal(ms[..|ms| - 1], a, b);
    }
  }
}
