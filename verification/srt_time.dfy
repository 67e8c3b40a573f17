/** The hours/minutes/seconds/milliseconds form in which a subtitle parser hands
    over a timestamp, and its conversion to the millisecond count used everywhere
    else in the model. */
module SrtTime {

  datatype Time = Time(hours: int, minutes: int, seconds: int, milliseconds: int)

  /** A timestamp whose components are each within their usual range. */
  predicate Normal(t: Time) {
    && 0 <= t.hours
    && 0 <= t.minutes < 60
    && 0 <= t.seconds < 60
    && 0 <= t.milliseconds < 1000
  }

  /** Milliseconds since zero: the weighted sum of the four components. */
  function ToMs(t: Time): (ms: int)
    ensures Normal(t) ==> 0 <= ms
  {
    1000 * (t.hours * 3600 + t.minutes * 60 + t.seconds) + t.milliseconds
  }

  /** The normal timestamp for a non-negative millisecond count. */
  function FromMs(ms: nat): (t: Time)
    ensures Normal(t)
    ensures ToMs(t) == ms
  {
    var secs := ms / 1000;
    var mins := secs / 60;
    Time(mins / 60, mins % 60, secs % 60, ms % 1000)
  }

  /** Division by a constant radix undoes the mixed-radix digit step. */
  lemma DivMod1000(q: int, r: int)
    requires 0 <= r < 1000
    ensures (q * 1000 + r) / 1000 == q && (q * 1000 + r) % 1000 == r
  {
  }

  lemma DivMod60(q: int, r: int)
    requires 0 <= r < 60
    ensures (q * 60 + r) / 60 == q && (q * 60 + r) % 60 == r
  {
  }

  /** Every normal timestamp is recovered from its millisecond count, so the
      conversion loses nothing on well-formed input. */
  lemma FromMsToMs(t: Time)
    requires Normal(t)
    ensures ToMs(t) >= 0 && FromMs(ToMs(t)) == t
  {
    var ms := ToMs(t);
    var mins := t.hours * 60 + t.minutes;
    var secs := mins * 60 + t.seconds;
    assert ms == secs * 1000 + t.milliseconds;
    DivMod1000(secs, t.milliseconds);
    DivMod60(mins, t.seconds);
    DivMod60(t.hours, t.minutes);
  }

  /** On normal timestamps the millisecond count orders times lexicographically
      by hours, minutes, seconds and milliseconds. */
  lemma ToMsMonotone(t: Time, u: Time)
    requires Normal(t) && Normal(u)
    ensures ToMs(t) < ToMs(u) <==>
      (t.hours, t.minutes, t.seconds, t.milliseconds) != (u.hours, u.minutes, u.seconds, u.milliseconds) &&
      (t.hours < u.hours || (t.hours == u.hours && (t.minutes < u.minutes ||
        (t.minutes == u.minutes && (t.seconds < u.seconds ||
          (t.seconds == u.seconds && t.milliseconds < u.milliseconds))))))
  {
    var mt := t.hours * 60 + t.minutes;
    var mu := u.hours * 60 + u.minutes;
    var st := mt * 60 + t.seconds;
    var su := mu * 60 + u.seconds;
    assert ToMs(t) == st * 1000 + t.milliseconds;
    assert ToMs(u) == su * 1000 + u.milliseconds;
    LexLess(t.hours, t.minutes, u.hours, u.minutes, 60);
    LexLess(mt, t.seconds, mu, u.seconds, 60);
    LexLess(st, t.milliseconds, su, u.milliseconds, 1000);
  }

  /** A mixed-radix number with one digit below `d` compares lexicographically. */
  lemma LexLess(hi: int, lo: int, hi': int, lo': int, d: int)
    requires 0 < d && 0 <= lo < d && 0 <= lo' < d
    ensures hi * d + lo < hi' * d + lo' <==> hi < hi' || (hi == hi' && lo < lo')
    ensures hi * d + lo == hi' * d + lo' <==> hi == hi' && lo == lo'
  {
    if hi < hi' {
      assert hi * d + lo < (hi + 1) * d <= hi' * d + lo';
    } else if hi' < hi {
      assert hi' * d + lo' < (hi' + 1) * d <= hi * d + lo;
    }
  }
}
