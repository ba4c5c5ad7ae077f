/** Shared vocabulary of the model: document ids, optional values, time in
    minutes, and money rounded the way Go's `math.Round(x*100)/100` does. */
module Base {

  /** A document id. The database's ObjectIDs are modelled as naturals; the
      repositories hand out ids from 1 upwards. */
  type Id = nat

  /** The zero ObjectID, which `primitive.ObjectIDFromHex` returns together
      with an error for a malformed hex string. */
  const NilId: Id := 0

  datatype Option<T> = None | Some(value: T) {
    function GetOr(default: T): T {
      match this
      case Some(v) => v
      case None => default
    }
  }

  /** Go's zero `time.Time` (1 January of year 1, UTC) in minutes since the
      Unix epoch: the value of a date field nobody set. */
  const ZeroTime: real := -1035593280.0

  /** Minutes in one hour; times are real numbers of minutes. */
  const MinutesPerHour: real := 60.0

  /** `math.Round`: the nearest integer, halves rounded away from zero. */
  function RoundHalfAway(x: real): (n: int)
    ensures x - 0.5 <= n as real <= x + 0.5
    ensures x >= 0.0 ==> n >= 0
    ensures x <= 0.0 ==> n <= 0
  {
    if x >= 0.0 then (x + 0.5).Floor else -((-x + 0.5).Floor)
  }

  /** Money rounded to cents: `math.Round(x*100) / 100`. */
  function Round2(x: real): (r: real)
    ensures x - 0.005 <= r <= x + 0.005
    ensures x >= 0.0 ==> r >= 0.0
  {
    RoundHalfAway(x * 100.0) as real / 100.0
  }

  /** Rounding never reverses the order of two amounts. */
  lemma RoundHalfAwayMonotone(x: real, y: real)
    requires x <= y
    ensures RoundHalfAway(x) <= RoundHalfAway(y)
  {
    if 0.0 <= x {
      assert (x + 0.5).Floor <= (y + 0.5).Floor;
    } else if y < 0.0 {
      assert (-y + 0.5).Floor <= (-x + 0.5).Floor;
    }
  }

  lemma Round2Monotone(x: real, y: real)
    requires x <= y
    ensures Round2(x) <= Round2(y)
  {
    RoundHalfAwayMonotone(x * 100.0, y * 100.0);
  }

  /** An integer is its own rounding. */
  lemma RoundHalfAwayOfInt(n: int)
    ensures RoundHalfAway(n as real) == n
  {
    if n >= 0 {
      assert (n as real + 0.5).Floor == n;
    } else {
      assert (-(n as real) + 0.5).Floor == -n;
    }
  }

  /** Rounding to cents twice is the same as rounding once. */
  lemma Round2Idempotent(x: real)
    ensures Round2(Round2(x)) == Round2(x)
  {
    var n := RoundHalfAway(x * 100.0);
    assert Round2(x) * 100.0 == n as real;
    RoundHalfAwayOfInt(n);
  }

  /** Half away from zero is symmetric: rounding a negated amount negates
      the rounded amount. */
  lemma Round2Negate(x: real)
    ensures Round2(-x) == -Round2(x)
  {
    if x > 0.0 {
      assert -x * 100.0 == -(x * 100.0);
    } else if x < 0.0 {
      assert -x * 100.0 == -(x * 100.0);
    }
  }

  /** `math.Round(c*p) / 100`: `p` percent of `c`, in cents. */
  function PercentOf(c: real, p: real): real {
    RoundHalfAway(c * p) as real / 100.0
  }

  /** Taking a percentage this way is rounding `c*p/100` to cents. */
  lemma PercentOfIsRound2(c: real, p: real)
    ensures PercentOf(c, p) == Round2(c * p / 100.0)
  {
    assert c * p / 100.0 * 100.0 == c * p;
  }

  /** A percentage taken this way is already in cents. */
  lemma PercentOfInCents(c: real, p: real)
    ensures Round2(PercentOf(c, p)) == PercentOf(c, p)
  {
    PercentOfIsRound2(c, p);
    Round2Idempotent(c * p / 100.0);
  }

  /** Between 0 and 100 percent of an amount in cents lies between zero and
      the amount. */
  lemma PercentOfWithin(c: real, p: real)
    requires c >= 0.0 && 0.0 <= p <= 100.0 && Round2(c) == c
    ensures 0.0 <= PercentOf(c, p) <= c
  {
    var share := c * p / 100.0;
    assert 0.0 <= share <= c by {
      assert share == (p / 100.0) * c;
      assert 0.0 <= p / 100.0 <= 1.0;
    }
    PercentOfIsRound2(c, p);
    Round2Monotone(share, c);
  }

  /** A value clamped below at zero: the `if x < 0 { x = 0 }` the handlers use. */
  function ClampAtZero(x: real): (r: real)
    ensures r >= 0.0 && r >= x
    ensures r == x || r == 0.0
  {
    if x < 0.0 then 0.0 else x
  }
}
