/** The events of one certificate that wait in line during a pass. */
module SyncLine {
  import opened CertificateEvents
  import opened CertificateStore
  import opened SyncLog

  /**
   * The line holds, in the order of the log, events that still have attempts left and have not been
   * attempted since the pass started; nothing that precedes one of them in the log is both undone and
   * out of line.
   */
  ghost predicate InLine(max: nat, start: Attempts, a: Attempts, log: seq<Event>, line: seq<Event>) {
    && Increasing(line)
    && (forall i :: 0 <= i < |line| ==>
          line[i] in log && ToSynchronize(line[i]) && !Done(a, line[i].id) && Count(a, line[i].id) < max
          && Count(a, line[i].id) == Count(start, line[i].id))
    && NoGaps(a, log, line)
  }

  ghost predicate NoGaps(a: Attempts, log: seq<Event>, line: seq<Event>) {
    forall i, k | 0 <= i < |line| && 0 <= k < |log| && log[k].id < line[i].id ::
      ToSynchronize(log[k]) && !Done(a, log[k].id) ==> log[k] in line
  }

  /**
   * The k-th event of the log was attempted once since the pass started, and is the given event or
   * stopped it by failing.
   */
  ghost predicate SettledBy(start: Attempts, a: Attempts, log: seq<Event>, e: Event, k: int) {
    && 0 <= k < |log| && Count(a, log[k].id) == Count(start, log[k].id) + 1
    && (log[k].id == e.id || (log[k].id < e.id && !Done(a, log[k].id)))
  }

  ghost predicate Settled(start: Attempts, a: Attempts, log: seq<Event>, e: Event) {
    exists k :: SettledBy(start, a, log, e, k)
  }

  /** No selected event has been attempted more than once since the pass started. */
  ghost predicate AtMostOnce(start: Attempts, a: Attempts, selected: seq<Event>) {
    forall i :: 0 <= i < |selected| ==> Count(a, selected[i].id) <= Count(start, selected[i].id) + 1
  }

  /** Only selected events wait in line, and every event that the pass selected waits in line or is settled. */
  ghost predicate Standing(max: nat, start: Attempts, a: Attempts, log: seq<Event>, selected: seq<Event>,
                           line: seq<Event>)
  {
    && InLine(max, start, a, log, line)
    && (forall i :: 0 <= i < |line| ==> line[i] in selected)
    && AtMostOnce(start, a, selected)
    && forall i :: 0 <= i < |selected| ==> selected[i] in line || Settled(start, a, log, selected[i])
  }

  lemma HeadIsReady(max: nat, start: Attempts, a: Attempts, log: seq<Event>, line: seq<Event>)
    requires InLine(max, start, a, log, line) && line != []
    ensures Ready(max, a, log, line[0])
  {
    forall k | 0 <= k < |log| && ToSynchronize(log[k]) && log[k].id < line[0].id
      ensures Done(a, log[k].id)
    {
      NotBeforeHead(line, log[k]);
    }
  }

  lemma NotBeforeHead(line: seq<Event>, e: Event)
    requires Increasing(line) && line != [] && e.id < line[0].id
    ensures e !in line
  {
  }

  lemma GrowthKeepsLine(max: nat, start: Attempts, a: Attempts, log: seq<Event>, a': Attempts, log': seq<Event>,
                        line: seq<Event>)
    requires InLine(max, start, a, log, line) && Grew(a, log, a', log')
    ensures InLine(max, start, a', log', line)
  {
    forall i | 0 <= i < |line|
      ensures line[i] in log' && !Done(a', line[i].id) && Count(a', line[i].id) == Count(a, line[i].id)
    {
      var k :| 0 <= k < |log| && log[k] == line[i];
      assert log'[k] == line[i];
    }
    forall i, k | 0 <= i < |line| && 0 <= k < |log'| && ToSynchronize(log'[k]) && !Done(a', log'[k].id)
                  && log'[k].id < line[i].id
      ensures log'[k] in line
    {
      var p :| 0 <= p < |log| && log[p] == line[i];
      assert log'[p] == line[i];
      assert k < p;
      assert log'[k] == log[k];
    }
  }

  lemma GrowthKeepsSettled(start: Attempts, a: Attempts, log: seq<Event>, a': Attempts, log': seq<Event>, e: Event)
    requires Settled(start, a, log, e) && Grew(a, log, a', log')
    ensures Settled(start, a', log', e)
  {
    var k :| SettledBy(start, a, log, e, k);
    assert log'[k] == log[k];
    assert SettledBy(start, a', log', e, k);
  }

  lemma GrowthKeepsStanding(max: nat, start: Attempts, a: Attempts, log: seq<Event>, a': Attempts, log': seq<Event>,
                            selected: seq<Event>, line: seq<Event>)
    requires Standing(max, start, a, log, selected, line) && Grew(a, log, a', log')
    requires forall i :: 0 <= i < |selected| ==> selected[i] in log
    ensures Standing(max, start, a', log', selected, line)
    ensures forall i :: 0 <= i < |selected| ==> selected[i] in log'
  {
    hide InLine, Settled, Grew, AtMostOnce;
    GrowthKeepsLine(max, start, a, log, a', log', line);
    GrowthKeepsOnce(start, a, log, a', log', selected);
    assert log <= log' by { GrewIsLonger(a, log, a', log'); }
    forall i | 0 <= i < |selected| ensures selected[i] in line || Settled(start, a', log', selected[i]) {
      if selected[i] !in line {
        GrowthKeepsSettled(start, a, log, a', log', selected[i]);
      }
    }
    forall i | 0 <= i < |selected| ensures selected[i] in log' {
      var k :| 0 <= k < |log| && log[k] == selected[i];
      assert log'[k] == selected[i];
    }
  }

  lemma GrowthKeepsOnce(start: Attempts, a: Attempts, log: seq<Event>, a': Attempts, log': seq<Event>,
                        selected: seq<Event>)
    requires AtMostOnce(start, a, selected) && Grew(a, log, a', log')
    requires forall i :: 0 <= i < |selected| ==> selected[i] in log
    ensures AtMostOnce(start, a', selected)
  {
    forall i | 0 <= i < |selected| ensures Count(a', selected[i].id) == Count(a, selected[i].id) {
      var k :| 0 <= k < |log| && log[k] == selected[i];
    }
  }

  lemma GrewIsLonger(a: Attempts, log: seq<Event>, a': Attempts, log': seq<Event>)
    requires Grew(a, log, a', log')
    ensures log <= log'
  {
  }

  /** The rows of the other events of a log stay as they are when one event is recorded. */
  lemma RecordKeepsOthers(a: Attempts, log: seq<Event>, a': Attempts, log': seq<Event>, e: Event, error: bool, i: nat)
    requires Recorded(a, log, a', log', e, error) && i < |log| && log[i].id != e.id
    ensures log'[i] == log[i] && Done(a', log[i].id) == Done(a, log[i].id)
            && Count(a', log[i].id) == Count(a, log[i].id)
  {
  }

  lemma RecordKeepsSettled(start: Attempts, a: Attempts, log: seq<Event>, a': Attempts, log': seq<Event>,
                           e: Event, error: bool, other: Event)
    requires Settled(start, a, log, other) && Recorded(a, log, a', log', e, error)
    requires Count(a, e.id) == Count(start, e.id)
    ensures Settled(start, a', log', other)
  {
    var k :| SettledBy(start, a, log, other, k);
    RecordKeepsOthers(a, log, a', log', e, error, k);
    assert SettledBy(start, a', log', other, k);
  }

  lemma RecordKeepsOnce(start: Attempts, a: Attempts, log: seq<Event>, a': Attempts, log': seq<Event>,
                        selected: seq<Event>, e: Event, error: bool)
    requires AtMostOnce(start, a, selected) && Recorded(a, log, a', log', e, error)
    requires Count(a, e.id) == Count(start, e.id) && forall i :: 0 <= i < |selected| ==> selected[i] in log
    ensures AtMostOnce(start, a', selected)
  {
    forall i | 0 <= i < |selected| && selected[i].id != e.id
      ensures Count(a', selected[i].id) == Count(a, selected[i].id)
    {
      var k :| 0 <= k < |log| && log[k] == selected[i];
      RecordKeepsOthers(a, log, a', log', e, error, k);
    }
  }

  lemma RestKeepsPlace(max: nat, start: Attempts, a: Attempts, log: seq<Event>, a': Attempts, log': seq<Event>,
                       e: Event, rest: seq<Event>)
    requires InLine(max, start, a, log, [e] + rest) && Recorded(a, log, a', log', e, false)
    ensures forall i :: 0 <= i < |rest| ==> rest[i].id != e.id
    ensures forall i :: 0 <= i < |rest| ==>
              rest[i] in log' && ToSynchronize(rest[i]) && !Done(a', rest[i].id) && Count(a', rest[i].id) < max
              && Count(a', rest[i].id) == Count(start, rest[i].id)
  {
    hide NoGaps;
    var line := [e] + rest;
    forall i | 0 <= i < |rest|
      ensures rest[i].id != e.id
      ensures rest[i] in log' && ToSynchronize(rest[i]) && !Done(a', rest[i].id) && Count(a', rest[i].id) < max
              && Count(a', rest[i].id) == Count(start, rest[i].id)
    {
      assert rest[i] == line[i + 1] && line[0].id < line[i + 1].id;
      var k :| 0 <= k < |log| && log[k] == line[i + 1];
      RecordKeepsOthers(a, log, a', log', e, false, k);
    }
  }

  lemma SuccessLeavesNoGaps(a: Attempts, log: seq<Event>, a': Attempts, log': seq<Event>, e: Event, rest: seq<Event>)
    requires NoGaps(a, log, [e] + rest) && Recorded(a, log, a', log', e, false)
    ensures NoGaps(a', log', rest)
  {
    var line := [e] + rest;
    forall i, k | 0 <= i < |rest| && 0 <= k < |log'| && log'[k].id < rest[i].id
                  && ToSynchronize(log'[k]) && !Done(a', log'[k].id)
      ensures log'[k] in rest
    {
      assert k < |log| && log'[k] == log[k] && log[k].id != e.id;
      RecordKeepsOthers(a, log, a', log', e, false, k);
      assert log[k].id < line[i + 1].id;
      assert log[k] in line;
    }
  }

  /** After a success the line moves up. */
  lemma SuccessMovesLine(max: nat, start: Attempts, a: Attempts, log: seq<Event>, a': Attempts, log': seq<Event>,
                         e: Event, rest: seq<Event>)
    requires InLine(max, start, a, log, [e] + rest) && Recorded(a, log, a', log', e, false)
    ensures InLine(max, start, a', log', rest)
  {
    RestKeepsPlace(max, start, a, log, a', log', e, rest);
    SuccessLeavesNoGaps(a, log, a', log', e, rest);
    hide NoGaps, Recorded;
    var line := [e] + rest;
    assert forall i :: 0 <= i < |rest| ==> rest[i] == line[i + 1];
  }

  lemma HeadIsWaiting(max: nat, start: Attempts, a: Attempts, log: seq<Event>, e: Event, rest: seq<Event>)
    requires InLine(max, start, a, log, [e] + rest)
    ensures e in log && Count(a, e.id) == Count(start, e.id)
  {
    hide NoGaps;
    var line := [e] + rest;
    assert line[0] == e;
  }

  lemma SuccessKeepsStanding(max: nat, start: Attempts, a: Attempts, log: seq<Event>, a': Attempts, log': seq<Event>,
                             selected: seq<Event>, e: Event, rest: seq<Event>)
    requires Standing(max, start, a, log, selected, [e] + rest) && Recorded(a, log, a', log', e, false)
    requires Increasing(log) && forall i :: 0 <= i < |selected| ==> selected[i] in log
    ensures Standing(max, start, a', log', selected, rest)
    ensures forall i :: 0 <= i < |selected| ==> selected[i] in log'
  {
    hide Settled, AtMostOnce, InLine, Recorded;
    SuccessMovesLine(max, start, a, log, a', log', e, rest);
    HeadIsWaiting(max, start, a, log, e, rest);
    var line := [e] + rest;
    assert line[0] == e;
    RecordKeepsOnce(start, a, log, a', log', selected, e, false);
    assert forall i :: 0 <= i < |rest| ==> rest[i] == line[i + 1];
    forall i | 0 <= i < |selected|
      ensures selected[i] in log' && (selected[i] in rest || Settled(start, a', log', selected[i]))
    {
      RecordSettles(max, start, a, log, a', log', line, e, false, selected[i]);
      assert selected[i] in line ==> selected[i] == e || selected[i] in rest;
    }
  }

  /** An event that is settled, or that is the one recorded, is settled afterwards. */
  lemma RecordSettles(max: nat, start: Attempts, a: Attempts, log: seq<Event>, a': Attempts, log': seq<Event>,
                      line: seq<Event>, e: Event, error: bool, other: Event)
    requires InLine(max, start, a, log, line) && e in line && Recorded(a, log, a', log', e, error)
    requires Increasing(log) && other in log
    ensures other in log'
    ensures other == e || Settled(start, a, log, other) ==> Settled(start, a', log', other)
  {
    var p :| 0 <= p < |log| && log[p] == other;
    assert log'[p] == other;
    var q :| 0 <= q < |line| && line[q] == e;
    if other == e {
      assert SettledBy(start, a', log', other, p);
    } else if Settled(start, a, log, other) {
      RecordKeepsSettled(start, a, log, a', log', e, error, other);
    }
  }

  /** After a failure nobody stays in line: whoever waited is settled behind the failed event. */
  lemma FailureKeepsStanding(max: nat, start: Attempts, a: Attempts, log: seq<Event>, a': Attempts, log': seq<Event>,
                             selected: seq<Event>, e: Event, rest: seq<Event>)
    requires Standing(max, start, a, log, selected, [e] + rest) && Recorded(a, log, a', log', e, true)
    requires Increasing(log) && forall i :: 0 <= i < |selected| ==> selected[i] in log
    ensures Standing(max, start, a', log', selected, [])
    ensures forall i :: 0 <= i < |selected| ==> selected[i] in log'
  {
    hide Settled, AtMostOnce, InLine, Recorded;
    HeadIsWaiting(max, start, a, log, e, rest);
    NobodyInLine(max, start, a', log');
    var line := [e] + rest;
    assert line[0] == e;
    RecordKeepsOnce(start, a, log, a', log', selected, e, true);
    forall i | 0 <= i < |selected|
      ensures selected[i] in log' && Settled(start, a', log', selected[i])
    {
      RecordSettles(max, start, a, log, a', log', line, e, true, selected[i]);
      if selected[i] in line {
        FailureSettles(max, start, a, log, a', log', line, e, selected[i]);
      }
    }
  }

  lemma NobodyInLine(max: nat, start: Attempts, a: Attempts, log: seq<Event>)
    ensures InLine(max, start, a, log, [])
  {
  }

  lemma FailureSettles(max: nat, start: Attempts, a: Attempts, log: seq<Event>, a': Attempts, log': seq<Event>,
                       line: seq<Event>, e: Event, other: Event)
    requires InLine(max, start, a, log, line) && line != [] && line[0] == e && other in line
    requires Recorded(a, log, a', log', e, true)
    ensures Settled(start, a', log', other)
  {
    var r :| 0 <= r < |log| && log[r] == e;
    assert log'[r] == e;
    var q :| 0 <= q < |line| && line[q] == other;
    assert line[0] in log && (q > 0 ==> line[0].id < line[q].id);
    assert SettledBy(start, a', log', other, r);
  }
}
