/** Windows of a fixed length, and rounding times to their boundaries. */
module Durations {

  datatype Unit = Minutes | Hours | Days | Weeks

  datatype Duration = Duration(value: nat, unit: Unit)

  function UnitMilliseconds(unit: Unit): (milliseconds: nat)
    ensures milliseconds == (if unit.Weeks? then 7 else 1) * (if unit.Weeks? || unit.Days? then 24 else 1)
                            * (if unit.Minutes? then 1 else 60) * 60 * 1000
  {
    match unit
    case Minutes => 60_000
    case Hours => 3_600_000
    case Days => 86_400_000
    case Weeks => 604_800_000
  }

  function Milliseconds(d: Duration): nat {
    d.value * UnitMilliseconds(d.unit)
  }

  /** The latest window boundary that is not after the time. */
  function RoundDate(w: nat, t: int): int
    requires 0 < w
  {
    t / w * w
  }

  /** The earliest window boundary that is not before the time. */
  function RoundDateUp(w: nat, t: int): int
    requires 0 < w
  {
    -((-t) / w) * w
  }

  ghost predicate Boundary(w: nat, t: int)
    requires 0 < w
  {
    t % w == 0
  }

  lemma BoundaryIsMultiple(w: nat, q: int)
    requires 0 < w
    ensures Boundary(w, q * w) && q * w / w == q
  {
  }

  lemma MultiplesInOrder(w: nat, a: int, b: int)
    requires a <= b
    ensures a * w <= b * w
  {
    assert 0 <= (b - a) * w == b * w - a * w;
  }

  lemma NextMultiple(w: nat, a: int, b: int)
    requires 0 < w && a * w < b * w
    ensures (a + 1) * w <= b * w
  {
    if b <= a {
      MultiplesInOrder(w, b, a);
    } else {
      MultiplesInOrder(w, a + 1, b);
    }
  }

  /** Boundaries are at least a window apart. */
  lemma BoundariesApart(w: nat, a: int, b: int)
    requires 0 < w && Boundary(w, a) && Boundary(w, b) && a < b
    ensures a + w <= b
  {
    assert a == a / w * w && b == b / w * w;
    NextMultiple(w, a / w, b / w);
    assert (a / w + 1) * w == a / w * w + w;
  }

  lemma RoundDateFacts(w: nat, t: int)
    requires 0 < w
    ensures Boundary(w, RoundDate(w, t)) && RoundDate(w, t) <= t < RoundDate(w, t) + w
  {
    BoundaryIsMultiple(w, t / w);
  }

  lemma RoundDateUpFacts(w: nat, t: int)
    requires 0 < w
    ensures Boundary(w, RoundDateUp(w, t)) && t <= RoundDateUp(w, t) < t + w
  {
    BoundaryIsMultiple(w, -((-t) / w));
    assert -t == (-t) / w * w + (-t) % w;
    assert -((-t) / w) * w == -((-t) / w * w);
  }

  /** A time rounds up to a boundary exactly when it lies in the window that ends there. */
  lemma RoundsUpTo(w: nat, t: int, b: int)
    requires 0 < w && Boundary(w, b)
    ensures RoundDateUp(w, t) == b <==> b - w < t <= b
  {
    RoundDateUpFacts(w, t);
    var u := RoundDateUp(w, t);
    if u < b { BoundariesApart(w, u, b); }
    if b < u { BoundariesApart(w, b, u); }
  }

  /** Rounding up keeps the order of times, and two times with a boundary between them stay apart. */
  lemma RoundsUpMonotone(w: nat, t: int, b: int)
    requires 0 < w && Boundary(w, b)
    ensures t <= b <==> RoundDateUp(w, t) <= b
  {
    RoundDateUpFacts(w, t);
    var u := RoundDateUp(w, t);
    if b < u { BoundariesApart(w, b, u); }
  }
}
