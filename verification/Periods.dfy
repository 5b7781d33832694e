/** A grid of periods: which one a time falls into. */
module Periods {

  /** The number of the period, counted from the one that begins at start. */
  function Slot(start: int, period: int, t: int): int
    requires period > 0
  {
    (t - start) / period
  }

  lemma {:induction false} AtLeastOne(p: int, z: int)
    requires p > 0 && z >= 1
    ensures p * z >= p
    decreases z
  {
    if z > 1 {
      AtLeastOne(p, z - 1);
    }
  }

  lemma Quotient(x: int, p: int, q: int)
    requires p > 0 && p * q <= x < p * q + p
    ensures x / p == q && x % p == x - p * q
  {
    var d := x / p;
    assert x == p * d + x % p;
    if d > q {
      AtLeastOne(p, d - q);
    } else if d < q {
      AtLeastOne(p, q - d);
    }
  }

  lemma SlotMonotone(start: int, period: int, a: int, b: int)
    requires period > 0 && a <= b
    ensures Slot(start, period, a) <= Slot(start, period, b)
  {
    var i, j := Slot(start, period, a), Slot(start, period, b);
    assert a - start == period * i + (a - start) % period;
    assert b - start == period * j + (b - start) % period;
    if i > j {
      AtLeastOne(period, i - j);
    }
  }

  /** If now begins a period, exactly the times within that period share its number. */
  lemma SlotOnGrid(start: int, period: int, now: int, t: int)
    requires period > 0 && (now - start) % period == 0
    ensures Slot(start, period, t) == Slot(start, period, now) <==> now <= t < now + period
    ensures t < now ==> Slot(start, period, t) < Slot(start, period, now)
    ensures t >= now + period ==> Slot(start, period, t) > Slot(start, period, now)
  {
    var k, m := Slot(start, period, now), Slot(start, period, t);
    assert now - start == period * k;
    assert t - start == period * m + (t - start) % period;
    if m > k {
      AtLeastOne(period, m - k);
    } else if m < k {
      AtLeastOne(period, k - m);
    }
  }

  /** The multiple of the period that leads from start to the period of now. */
  lemma RollGrid(start: int, period: int, now: int)
    requires period > 0
    ensures var m := (now - start) / period;
            && now < start + period * m + period && start + period * m <= now
            && (m <= 0 ==> now < start + period)
            && (m > 0 ==> start + period <= start + period * m)
  {
    var m := (now - start) / period;
    assert now - start == period * m + (now - start) % period;
    if m > 0 {
      AtLeastOne(period, m);
    } else if m < 0 {
      AtLeastOne(period, -m);
    }
  }

  lemma GridStep(d: int, period: int, m: int)
    requires period > 0 && d % period == 0
    ensures (d + period * m) % period == 0
  {
    var q := d / period;
    assert d == period * q;
    assert period * (q + m) == period * q + period * m;
    Quotient(d + period * m, period, q + m);
  }
}
