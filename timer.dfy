/**
 * The countdown both debate rooms show: the updater that the one-second
 * interval applies to `timeLeft`, the `m:ss` formatter and the colour band
 * of the timer. The two rooms share the updater and the formatter; their
 * colour thresholds differ.
 */
module Timer {
  import opened Text
  import opened Optional

  /** What one interval callback does: the new `timeLeft`, and whether it
      cleared the interval and ended the debate. */
  datatype TickResult = TickResult(next: int, expired: bool)

  /** The updater passed to `setTimeLeft`: at one second or less left the
      interval is cleared, the end handler runs and the time becomes 0;
      otherwise one second is taken off. */
  function Countdown(prev: int): (r: TickResult)
    ensures r.expired <==> prev <= 1
    ensures r.next >= 0
    ensures prev >= 0 ==> r.next <= prev
    ensures r.expired ==> r.next == 0
    ensures !r.expired ==> r.next + 1 == prev
  {
    if prev <= 1 then TickResult(0, true) else TickResult(prev - 1, false)
  }

  /** The countdown as the interval drives it: the time left, whether the
      interval is still scheduled, and how many times the end handler ran. */
  datatype Clock = Clock(timeLeft: int, running: bool, expirations: nat)

  /** The clock when the room mounts with `duration` seconds. */
  function Start(duration: int): Clock {
    Clock(duration, true, 0)
  }

  /** The states a room's countdown of `duration` seconds can be in: within
      its bounds, stopped only at 0, and having run the end handler once
      exactly when it has stopped. */
  predicate ClockOk(c: Clock, duration: int) {
    && (c.timeLeft >= 0 || c.timeLeft == duration)
    && (c.timeLeft <= duration || c.timeLeft == 0)
    && (!c.running ==> c.timeLeft == 0)
    && c.expirations == if c.running then 0 else 1
  }

  /** A room's countdown starts in a state `ClockOk` allows, and every
      firing of the interval keeps it in one. */
  lemma ClockOkKept(c: Clock, duration: int)
    ensures ClockOk(Start(duration), duration)
    ensures ClockOk(c, duration) ==> ClockOk(Fire(c), duration)
  {
  }

  /** One second of wall time: the interval fires once if it is still
      scheduled; a cleared interval never fires again. */
  function Fire(c: Clock): (r: Clock)
    ensures r.timeLeft >= 0 || r == c
    ensures c.timeLeft >= 0 ==> r.timeLeft <= c.timeLeft
    ensures r.expirations == c.expirations + (if c.running && c.timeLeft <= 1 then 1 else 0)
  {
    if !c.running then c
    else
      var t := Countdown(c.timeLeft);
      Clock(t.next, !t.expired, c.expirations + if t.expired then 1 else 0)
  }

  /** `k` seconds of wall time. */
  function FireN(c: Clock, k: nat): Clock
    decreases k
  {
    if k == 0 then c else FireN(Fire(c), k - 1)
  }

  /** The seconds until the interval clears: the duration itself, or one
      tick when the room starts with one second or less. */
  function Lifetime(duration: int): (n: nat)
    ensures n >= 1
  {
    if duration >= 1 then duration else 1
  }

  /** From the start, the timer counts down by one per second while
      running; after exactly `Lifetime(duration)` seconds it has ended the
      debate once, shows 0 and is cleared, and nothing changes after that:
      the end handler runs exactly once. */
  lemma {:induction false} CountdownSchedule(duration: int, k: nat)
    ensures k < Lifetime(duration) ==> FireN(Start(duration), k) == Clock(duration - k, true, 0)
    ensures k >= Lifetime(duration) ==> FireN(Start(duration), k) == Clock(0, false, 1)
  {
    if k > 0 {
      CountdownSchedule(duration, k - 1);
      FireNLast(Start(duration), k - 1);
    }
  }

  /** Unrolling the last second instead of the first. */
  lemma {:induction false} FireNLast(c: Clock, k: nat)
    ensures FireN(c, k + 1) == Fire(FireN(c, k))
    decreases k
  {
    if k > 0 {
      FireNLast(Fire(c), k - 1);
    }
  }

  /** From a non-negative start the time shown never goes negative and never
      goes up, however many seconds pass. */
  lemma {:induction false} TimeLeftMonotone(c: Clock, k: nat)
    requires c.timeLeft >= 0
    ensures 0 <= FireN(c, k).timeLeft <= c.timeLeft
    ensures FireN(c, k).expirations <= c.expirations + 1
    decreases k
  {
    if k > 0 {
      TimeLeftMonotone(Fire(c), k - 1);
      if c.running && c.timeLeft <= 1 {
        StoppedStaysPut(Fire(c), k - 1);
      }
    }
  }

  /** A cleared interval leaves the clock as it is. */
  lemma {:induction false} StoppedStaysPut(c: Clock, k: nat)
    requires !c.running
    ensures FireN(c, k) == c
    decreases k
  {
    if k > 0 {
      StoppedStaysPut(Fire(c), k - 1);
    }
  }

  /** JavaScript's `seconds % 60`: the remainder takes the sign of the
      dividend, unlike Dafny's `%`. */
  function JsRem60(n: int): (r: int)
    ensures n >= 0 ==> 0 <= r < 60
    ensures n < 0 ==> -60 < r <= 0
    ensures (n - r) % 60 == 0
  {
    if n >= 0 then n % 60 else -((-n) % 60)
  }

  /** The seconds field of a clock: a remainder below 60 padded to two
      digits, which reads back as that remainder. */
  lemma SecondsField(secs: nat)
    requires secs < 60
    ensures var ss := PadStart2(IntToString(secs));
      |ss| == 2 && AllDigits(ss) && ss[0] <= '5' && ParseNat(ss) == secs
  {
    var ss := PadStart2(IntToString(secs));
    ParseNatToString(secs);
    if secs < 10 {
      assert ss == ['0', DigitChar(secs)];
      assert ss[..1] == ['0'];
    } else {
      var t := NatToString(secs);
      assert t == NatToString(secs / 10) + [DigitChar(secs % 10)];
      assert t[0] == DigitChar(secs / 10);
      assert ss == t;
    }
  }

  /** What `formatTime` shows for a non-negative time: minute digits, a
      colon and two seconds digits whose first is at most 5. */
  predicate IsClock(s: string) {
    |s| >= 4 && s[|s| - 3] == ':' && AllDigits(s[..|s| - 3]) &&
    AllDigits(s[|s| - 2..]) && s[|s| - 2] <= '5'
  }

  /** The shape of `m + ":" + ss` with a two-character seconds field. */
  lemma ClockLayout(m: string, ss: string)
    requires |m| >= 1 && |ss| == 2
    ensures var r := m + ":" + ss;
      |r| >= 4 && r[|r| - 3] == ':' && r[..|r| - 3] == m && r[|r| - 2..] == ss
    ensures AllDigits(m) && AllDigits(ss) && ss[0] <= '5' ==> IsClock(m + ":" + ss)
  {
    var r := m + ":" + ss;
    assert r[..|r| - 3] == m;
    assert r[|r| - 2..] == ss;
  }

  /** The text `formatTime` builds from a minute count and a seconds
      remainder: `${mins}:${secs.toString().padStart(2, "0")}`. */
  function ClockText(mins: int, secs: int): (r: string)
    ensures |r| >= 4
    ensures mins >= 0 && 0 <= secs < 60 ==> IsClock(r)
    ensures mins < 0 ==> r[0] == '-'
  {
    var m, ss := IntToString(mins), PadStart2(IntToString(secs));
    if mins >= 0 && 0 <= secs < 60 then
      SecondsField(secs);
      ClockLayout(m, ss);
      m + ":" + ss
    else
      assert |m| >= 1 && |ss| >= 2;
      assert (m + ":" + ss)[0] == m[0];
      m + ":" + ss
  }

  /** `formatTime`: whole minutes (`Math.floor(seconds / 60)`), a colon, and
      the remaining seconds (`seconds % 60`) padded to two digits. For a
      non-negative time that is `m:ss` with `ss` a two-digit number below
      60; a negative time shows a minus sign. */
  function FormatTime(seconds: int): (r: string)
    ensures |r| >= 4
    ensures seconds >= 0 ==> IsClock(r)
    ensures seconds < 0 ==> r[0] == '-'
  {
    // Dafny's `/` by a positive divisor rounds down, as `Math.floor` does.
    var mins := seconds / 60;
    assert seconds >= 0 <==> mins >= 0;
    ClockText(mins, JsRem60(seconds))
  }

  /** Reads an `m:ss` clock back into seconds; anything else is rejected. */
  function ParseClock(s: string): (r: Option<int>)
  {
    if |s| >= 4 && s[|s| - 3] == ':' && AllDigits(s[..|s| - 3]) && AllDigits(s[|s| - 2..])
    then Some(60 * ParseNat(s[..|s| - 3]) + ParseNat(s[|s| - 2..]))
    else None
  }

  /** A clock built from a minute count and a remainder below 60 reads back
      as `60 * mins + secs`. */
  lemma ParseClockText(mins: nat, secs: nat)
    requires secs < 60
    ensures ParseClock(ClockText(mins, secs)) == Some(60 * mins + secs)
  {
    var m, ss := IntToString(mins), PadStart2(IntToString(secs));
    ClockLayout(m, ss);
    SecondsField(secs);
    ParseNatToString(mins);
    assert ClockText(mins, secs) == m + ":" + ss;
  }

  /** Formatting a non-negative time and reading it back gives the time. */
  lemma ParseFormatTime(seconds: nat)
    ensures ParseClock(FormatTime(seconds)) == Some(seconds)
  {
    ParseClockText(seconds / 60, seconds % 60);
  }

  /** The timer colour of the video room: destructive in the last minute
      (60 seconds included), warning up to three minutes (180 included). */
  function VideoTimerColor(timeLeft: int): (r: string)
    ensures r == "text-destructive" <==> timeLeft <= 60
    ensures r == "text-warning" <==> 60 < timeLeft <= 180
    ensures r == "text-foreground" <==> timeLeft > 180
  {
    if timeLeft <= 60 then "text-destructive"
    else if timeLeft <= 180 then "text-warning"
    else "text-foreground"
  }

  /** The timer colour of the text room: critical below one minute, warning
      below three minutes; 60 and 180 themselves fall in the calmer band. */
  function ChatTimerColor(timeLeft: int): (r: string)
    ensures r == "bg-timer-critical" <==> timeLeft < 60
    ensures r == "bg-timer-warning" <==> 60 <= timeLeft < 180
    ensures r == "bg-timer-bg" <==> timeLeft >= 180
  {
    if timeLeft < 60 then "bg-timer-critical"
    else if timeLeft < 180 then "bg-timer-warning"
    else "bg-timer-bg"
  }

  /** How alarming a timer colour is: 2 for the last-minute colour, 1 for
      the warning colour, 0 otherwise. */
  function Urgency(color: string): nat {
    if color == "text-destructive" || color == "bg-timer-critical" then 2
    else if color == "text-warning" || color == "bg-timer-warning" then 1
    else 0
  }

  /** As the time left goes down, either room's timer only ever becomes
      more alarming. */
  lemma ColorOnlyEscalates(earlier: int, later: int)
    requires later <= earlier
    ensures Urgency(VideoTimerColor(later)) >= Urgency(VideoTimerColor(earlier))
    ensures Urgency(ChatTimerColor(later)) >= Urgency(ChatTimerColor(earlier))
  {
  }

  /** The two rooms show the same band at every time except exactly 60 and
      180 seconds, where the video room is one band more alarming. */
  lemma ColorsDifferOnlyAtThresholds(timeLeft: int)
    ensures Urgency(VideoTimerColor(timeLeft)) == Urgency(ChatTimerColor(timeLeft))
            <==> timeLeft != 60 && timeLeft != 180
    ensures timeLeft == 60 || timeLeft == 180 ==>
            Urgency(VideoTimerColor(timeLeft)) == Urgency(ChatTimerColor(timeLeft)) + 1
  {
  }
}
