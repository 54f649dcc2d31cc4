/** The percentage shown while the spreadsheet is being posted:
    `Math.round(loaded * 100 / total)`, computed exactly on integers. */
module Progress {

  /** One upload progress callback: bytes sent so far and bytes in all. */
  datatype Event = Event(loaded: nat, total: nat)

  /** What the browser delivers: a known, positive total that bounds the bytes sent. */
  predicate WellFormed(e: Event) {
    0 < e.total && e.loaded <= e.total
  }

  /** Characterises rounding to nearest with halves rounded up (what `Math.round`
      does for non-negative arguments): `p` is within one half of
      100 * loaded / total, i.e. -1/2 <= 100 * loaded / total - p < 1/2. */
  ghost predicate RoundsTo(loaded: nat, total: nat, p: int)
    requires total > 0
  {
    -(total as int) <= 200 * loaded - 2 * total * p < total
  }

  /** The rounded upload percentage. */
  function Percent(loaded: nat, total: nat): (p: int)
    requires total > 0
    ensures RoundsTo(loaded, total, p)
  {
    var num, den := 200 * loaded + total, 2 * total;
    assert num == den * (num / den) + num % den;
    num / den
  }

  /** The rounding condition has exactly one solution, so `Percent` is the rounded value. */
  lemma PercentUnique(loaded: nat, total: nat, q: int)
    requires total > 0
    requires RoundsTo(loaded, total, q)
    ensures q == Percent(loaded, total)
  {
    var p := Percent(loaded, total);
    // both 2 * total * p and 2 * total * q lie in (200 * loaded - total, 200 * loaded + total]
    if q > p {
      MulMonotone(2 * total, p + 1, q);
    } else if q < p {
      MulMonotone(2 * total, q + 1, p);
    }
  }

  /** While no more bytes are reported sent than there are, the percentage lies in [0, 100]. */
  lemma PercentInRange(loaded: nat, total: nat)
    requires total > 0 && loaded <= total
    ensures 0 <= Percent(loaded, total) <= 100
  {
    var p := Percent(loaded, total);
    if p < 0 {
      MulMonotone(2 * total, p, -1);
    } else if p > 100 {
      MulMonotone(2 * total, 101, p);
    }
  }

  /** Nothing sent shows 0 and everything sent shows 100. */
  lemma PercentEnds(total: nat)
    requires total > 0
    ensures Percent(0, total) == 0 && Percent(total, total) == 100
  {
    PercentUnique(0, total, 0);
    PercentUnique(total, total, 100);
  }

  /** More bytes sent never shows a smaller percentage. */
  lemma PercentMonotone(loaded1: nat, loaded2: nat, total: nat)
    requires total > 0 && loaded1 <= loaded2
    ensures Percent(loaded1, total) <= Percent(loaded2, total)
  {
    var p1, p2 := Percent(loaded1, total), Percent(loaded2, total);
    if p1 > p2 {
      MulMonotone(2 * total, p2 + 1, p1);
    }
  }

  /** The percentage shown after the callbacks of one transfer: the last one
      reported, or `current` when there was none. */
  function AfterEvents(current: int, events: seq<Event>): (p: int)
    requires forall i :: 0 <= i < |events| ==> WellFormed(events[i])
    ensures 0 <= current <= 100 ==> 0 <= p <= 100
    ensures events == [] ==> p == current
    ensures events != [] ==>
      var last := events[|events| - 1]; WellFormed(last) && p == Percent(last.loaded, last.total)
  {
    if events == [] then current
    else
      var e := events[|events| - 1];
      assert WellFormed(events[|events| - 1]);
      PercentInRange(e.loaded, e.total);
      Percent(e.loaded, e.total)
  }

  lemma MulMonotone(k: nat, a: int, b: int)
    requires a <= b
    ensures k * a <= k * b
  {
    var d := b - a;
    assert k * b == k * a + k * d;
  }
}
