/** Time-derived state: the per-second countdown of an auction card, its interval timer,
    and the coarser "time left" of the featured carousel. Time is given as `Date.now()`
    milliseconds; auction end times are ledger seconds. */
module Clock {
  import opened Text

  const SecondsPerDay := 86400
  const SecondsPerHour := 3600
  const SecondsPerMinute := 60

  /** What the auction card's countdown shows: the terminal marker, or the remaining time
      split into days, hours, minutes and seconds. */
  datatype Countdown = Ended | Remaining(days: nat, hours: nat, minutes: nat, seconds: nat)

  /** The countdown for an auction ending at `endTime` as seen at second `now`. */
  function TimeLeft(endTime: int, now: int): (r: Countdown)
    ensures r.Ended? <==> now >= endTime
    ensures r.Remaining? ==> r.hours < 24 && r.minutes < 60 && r.seconds < 60
    ensures r.Remaining? ==>
      r.days * SecondsPerDay + r.hours * SecondsPerHour + r.minutes * SecondsPerMinute + r.seconds == endTime - now
  {
    if now >= endTime then Ended
    else
      var diff := endTime - now;
      SplitSeconds(diff);
      Remaining(diff / SecondsPerDay, (diff % SecondsPerDay) / SecondsPerHour,
                (diff % SecondsPerHour) / SecondsPerMinute, diff % SecondsPerMinute)
  }

  /** Seconds a countdown still stands for; the terminal marker stands for none. */
  function TotalSeconds(c: Countdown): nat {
    match c
    case Ended => 0
    case Remaining(d, h, m, s) => d * SecondsPerDay + h * SecondsPerHour + m * SecondsPerMinute + s
  }

  /** The countdown never goes up as time passes, and once it shows the marker it keeps it. */
  lemma TimeLeftMonotonic(endTime: int, now1: int, now2: int)
    requires now1 <= now2
    ensures TotalSeconds(TimeLeft(endTime, now2)) <= TotalSeconds(TimeLeft(endTime, now1))
    ensures TimeLeft(endTime, now1).Ended? ==> TimeLeft(endTime, now2).Ended?
  {
  }

  /** The remaining time is exactly the distance to the end, so two readings at different
      seconds before the end always differ. */
  lemma TimeLeftInjectiveBeforeEnd(endTime: int, now1: int, now2: int)
    requires now1 < endTime && now2 < endTime && now1 != now2
    ensures TimeLeft(endTime, now1) != TimeLeft(endTime, now2)
  {
    assert TotalSeconds(TimeLeft(endTime, now1)) == endTime - now1;
  }

  /** The split into days, hours, minutes and seconds by the moduli the card uses adds up. */
  lemma SplitSeconds(x: nat)
    ensures (x % SecondsPerDay) % SecondsPerHour == x % SecondsPerHour
    ensures (x % SecondsPerHour) % SecondsPerMinute == x % SecondsPerMinute
    ensures x == (x / SecondsPerDay) * SecondsPerDay + ((x % SecondsPerDay) / SecondsPerHour) * SecondsPerHour
                 + ((x % SecondsPerHour) / SecondsPerMinute) * SecondsPerMinute + x % SecondsPerMinute
  {
    var d, q := x / SecondsPerDay, x % SecondsPerDay;
    var h, r := q / SecondsPerHour, q % SecondsPerHour;
    assert x == (24 * d + h) * SecondsPerHour + r;
    ModUnique(x, 24 * d + h, r, SecondsPerHour);
    var m, s := r / SecondsPerMinute, r % SecondsPerMinute;
    assert x == (60 * (24 * d + h) + m) * SecondsPerMinute + s;
    ModUnique(x, 60 * (24 * d + h) + m, s, SecondsPerMinute);
  }

  /** Quotient and remainder are the only ones: `x == k * m + r` with `0 <= r < m` fixes both. */
  lemma ModUnique(x: int, k: int, r: int, m: int)
    requires m > 0 && x == k * m + r && 0 <= r < m
    ensures x % m == r && x / m == k
  {
    var q := x / m;
    assert (q - k) * m == r - x % m;
    MulAtLeastOnce(q - k, m);
  }

  /** A non-zero multiple of a positive `m` is at least `m` away from zero. */
  lemma MulAtLeastOnce(t: int, m: int)
    requires m > 0
    ensures t >= 1 ==> t * m >= m
    ensures t <= -1 ==> t * m <= -m
  {
  }

  /** The text the card shows: `'Ended'`, or `${days}d ${hours}h ${minutes}m ${seconds}s`. */
  function Render(c: Countdown): (r: string)
    ensures r == "Ended" <==> c.Ended?
  {
    match c
    case Ended => "Ended"
    case Remaining(d, h, m, s) =>
      var text := DecimalString(d) + "d " + DecimalString(h) + "h " + DecimalString(m) + "m " + DecimalString(s) + "s";
      assert text[0] == DecimalString(d)[0] && IsDigit(text[0]);
      text
  }

  /** The interval of an auction card (one tick per second). It is only started for an
      auction that has not ended, and it clears itself on the tick that reports the end. */
  class CountdownTimer {
    const endTime: int
    var timeLeft: string
    var ticking: bool

    constructor (auctionEnded: bool, endTime: int)
      ensures this.endTime == endTime
      ensures timeLeft == "" && ticking == !auctionEnded
    {
      this.endTime := endTime;
      timeLeft := "";
      ticking := !auctionEnded;
    }

    /** One interval callback at `Date.now() == nowMs`. */
    method Tick(nowMs: nat)
      requires ticking
      modifies this
      ensures timeLeft == Render(TimeLeft(endTime, nowMs / 1000))
      ensures ticking <==> nowMs / 1000 < endTime
      ensures timeLeft == "Ended" <==> !ticking
    {
      var now := nowMs / 1000;
      if now >= endTime {
        timeLeft := "Ended";
        ticking := false;
      } else {
        var diff := endTime - now;
        var days := diff / SecondsPerDay;
        var hours := (diff % SecondsPerDay) / SecondsPerHour;
        var minutes := (diff % SecondsPerHour) / SecondsPerMinute;
        var seconds := diff % SecondsPerMinute;
        timeLeft := Render(Remaining(days, hours, minutes, seconds));
      }
    }

    /** The effect's cleanup on unmount: the interval stops and the last text stays. */
    method Unmount()
      modifies this
      ensures !ticking && timeLeft == old(timeLeft)
    {
      ticking := false;
    }
  }

  const MsPerDay := 86400000
  const MsPerHour := 3600000
  const MsPerMinute := 60000

  /** What a featured slide shows: `'Finalizado'`, or days, hours and whole minutes left. */
  datatype ShortCountdown = Finalized | Left(days: nat, hours: nat, minutes: nat)

  /** `formatTimeLeft` of the featured carousel, on millisecond timestamps. */
  function FormatTimeLeft(endTimeMs: int, nowMs: int): (r: ShortCountdown)
    ensures r.Finalized? <==> endTimeMs - nowMs <= 0
    ensures r.Left? ==> r.hours < 24 && r.minutes < 60
    ensures r.Left? ==>
      var shown := r.days * MsPerDay + r.hours * MsPerHour + r.minutes * MsPerMinute;
      shown <= endTimeMs - nowMs < shown + MsPerMinute
  {
    var left := endTimeMs - nowMs;
    if left <= 0 then Finalized
    else
      SplitMinutes(left);
      Left(left / MsPerDay, (left % MsPerDay) / MsPerHour, (left % MsPerHour) / MsPerMinute)
  }

  lemma SplitMinutes(left: nat)
    ensures (left % MsPerDay) % MsPerHour == left % MsPerHour
    ensures left == (left / MsPerDay) * MsPerDay + ((left % MsPerDay) / MsPerHour) * MsPerHour
                    + ((left % MsPerHour) / MsPerMinute) * MsPerMinute + (left % MsPerHour) % MsPerMinute
  {
    var d, q := left / MsPerDay, left % MsPerDay;
    var h, r := q / MsPerHour, q % MsPerHour;
    assert left == (24 * d + h) * MsPerHour + r;
    ModUnique(left, 24 * d + h, r, MsPerHour);
  }

  /** The featured slide's text: `'Finalizado'` or `${days}d ${hours}h ${minutes}m`. */
  function RenderShort(c: ShortCountdown): (r: string)
    ensures r == "Finalizado" <==> c.Finalized?
  {
    match c
    case Finalized => "Finalizado"
    case Left(d, h, m) =>
      var text := DecimalString(d) + "d " + DecimalString(h) + "h " + DecimalString(m) + "m";
      assert text[0] == DecimalString(d)[0] && IsDigit(text[0]);
      text
  }

  /** The featured carousel stores the ledger's end time in milliseconds (`new Date(s * 1000)`). */
  function EndTimeMs(endTimeSeconds: nat): (ms: nat)
    ensures ms / 1000 == endTimeSeconds && ms % 1000 == 0
  {
    endTimeSeconds * 1000
  }

  /** The card and the carousel agree on when an auction is over: the card ends at the first
      whole second `>= endTime`, the carousel at the first millisecond `>= endTime * 1000`. */
  lemma EndedAgreesWithFinalized(endTime: nat, nowMs: nat)
    ensures TimeLeft(endTime, nowMs / 1000).Ended? <==> FormatTimeLeft(EndTimeMs(endTime), nowMs).Finalized?
  {
    if nowMs / 1000 >= endTime {
      assert nowMs >= (nowMs / 1000) * 1000 >= endTime * 1000;
    } else {
      assert nowMs < (nowMs / 1000) * 1000 + 1000 <= endTime * 1000;
    }
  }

  /** On a whole second the carousel shows the card's days, hours and minutes. Between whole
      seconds the two can differ by a minute, since the card counts whole seconds up to the end
      and the carousel truncates the milliseconds. */
  lemma ShortAgreesOnWholeSeconds(endTime: nat, nowMs: nat)
    requires nowMs % 1000 == 0 && nowMs / 1000 < endTime
    ensures var c := TimeLeft(endTime, nowMs / 1000);
            FormatTimeLeft(EndTimeMs(endTime), nowMs) == Left(c.days, c.hours, c.minutes)
  {
    var now := nowMs / 1000;
    var c := TimeLeft(endTime, now);
    var f := FormatTimeLeft(EndTimeMs(endTime), nowMs);
    var diff := endTime - now;
    assert EndTimeMs(endTime) - nowMs == diff * 1000;
    var shown := c.days * MsPerDay + c.hours * MsPerHour + c.minutes * MsPerMinute;
    assert diff * 1000 == shown + c.seconds * 1000;
    var fshown := f.days * MsPerDay + f.hours * MsPerHour + f.minutes * MsPerMinute;
    assert fshown <= diff * 1000 < fshown + MsPerMinute;
    MixedRadixUnique(f.days, f.hours, f.minutes, diff * 1000 - fshown, c.days, c.hours, c.minutes, c.seconds * 1000);
  }

  /** A millisecond count has one split into days, hours (< 24), minutes (< 60) and a
      remainder below a minute. */
  lemma MixedRadixUnique(d1: nat, h1: nat, m1: nat, r1: nat, d2: nat, h2: nat, m2: nat, r2: nat)
    requires h1 < 24 && m1 < 60 && r1 < MsPerMinute
    requires h2 < 24 && m2 < 60 && r2 < MsPerMinute
    requires d1 * MsPerDay + h1 * MsPerHour + m1 * MsPerMinute + r1 == d2 * MsPerDay + h2 * MsPerHour + m2 * MsPerMinute + r2
    ensures d1 == d2 && h1 == h2 && m1 == m2
  {
    var t := d1 * MsPerDay + h1 * MsPerHour + m1 * MsPerMinute + r1;
    assert h1 * MsPerHour + m1 * MsPerMinute + r1 < MsPerDay;
    assert h2 * MsPerHour + m2 * MsPerMinute + r2 < MsPerDay;
    assert d1 == t / MsPerDay == d2;
    assert m1 * MsPerMinute + r1 < MsPerHour;
    assert m2 * MsPerMinute + r2 < MsPerHour;
    var u := h1 * MsPerHour + m1 * MsPerMinute + r1;
    assert h1 == u / MsPerHour == h2;
    var v := m1 * MsPerMinute + r1;
    assert m1 == v / MsPerMinute == m2;
  }
}
