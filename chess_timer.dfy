/**
 * A side's clock: the remaining seconds shown as `mm:ss`, a low-time flag
 * under one minute, and a once-a-second tick that counts down while the
 * clock is running, stops at zero and then reports the timeout.
 */
module ChessTimer {
  import opened BoardModel

  // ---------------------------------------------------------------------
  // Decimal text.
  // ---------------------------------------------------------------------

  function DigitChar(d: nat): (c: char)
    requires d < 10
    ensures '0' <= c <= '9'
  {
    ('0' as int + d) as char
  }

  function DigitValue(c: char): nat
    requires '0' <= c <= '9'
  {
    c as int - '0' as int
  }

  predicate IsDigits(s: string) {
    forall i :: 0 <= i < |s| ==> '0' <= s[i] <= '9'
  }

  /** The decimal text of `n`, without leading zeros. */
  function NatToString(n: nat): (s: string)
    ensures |s| >= 1 && IsDigits(s)
    ensures n > 0 ==> s[0] != '0'
    ensures n < 10 <==> |s| == 1
  {
    if n < 10 then [DigitChar(n)] else NatToString(n / 10) + [DigitChar(n % 10)]
  }

  /** The number a string of digits stands for, most significant digit first. */
  function Value(s: string): nat
    requires IsDigits(s)
  {
    if s == [] then 0 else Value(s[..|s| - 1]) * 10 + DigitValue(s[|s| - 1])
  }

  /** Reading a number's text gives the number back. */
  lemma {:induction false} NatToStringValue(n: nat)
    ensures Value(NatToString(n)) == n
  {
    if n >= 10 {
      NatToStringValue(n / 10);
      var s := NatToString(n);
      assert s[..|s| - 1] == NatToString(n / 10);
    }
  }

  /** A leading zero does not change the value. */
  lemma {:induction false} ValueLeadingZero(s: string)
    requires IsDigits(s)
    ensures IsDigits("0" + s) && Value("0" + s) == Value(s)
  {
    if s != [] {
      ValueLeadingZero(s[..|s| - 1]);
      assert ("0" + s)[..|s|] == "0" + s[..|s| - 1];
    }
  }

  /** The text padded on the left with `0` up to two characters. */
  function PadStart2(s: string): (r: string)
    ensures |r| == if |s| < 2 then 2 else |s|
    ensures IsDigits(s) ==> IsDigits(r)
  {
    if |s| < 2 then seq(2 - |s|, _ => '0') + s else s
  }

  /** Padding a number's text keeps its value. */
  lemma PadValue(n: nat)
    ensures IsDigits(PadStart2(NatToString(n))) && Value(PadStart2(NatToString(n))) == Value(NatToString(n))
  {
    var s := NatToString(n);
    if |s| < 2 {
      assert PadStart2(s) == "0" + s;
      ValueLeadingZero(s);
    }
  }

  // ---------------------------------------------------------------------
  // The clock face.
  // ---------------------------------------------------------------------

  /** formatTime: whole minutes and the remaining seconds, each padded to two digits. */
  function FormatTime(seconds: nat): string {
    PadStart2(NatToString(seconds / 60)) + ":" + PadStart2(NatToString(seconds % 60))
  }

  /** Reads `mm:ss` back; the seconds must be two digits under 60, the minutes at least one digit. */
  function ParseTime(r: string): Option<nat> {
    if |r| < 4 || r[|r| - 3] != ':' then None
    else
      var minutes, secs := r[..|r| - 3], r[|r| - 2..];
      if !IsDigits(minutes) || !IsDigits(secs) || Value(secs) >= 60 then None
      else Some(Value(minutes) * 60 + Value(secs))
  }

  /**
   * The face is a minutes field of at least two digits, a colon and a
   * seconds field of exactly two digits under 60, and the two fields read
   * back as the minutes and the seconds.
   */
  lemma FormatTimeFields(seconds: nat)
    ensures var r := FormatTime(seconds);
      && |r| >= 5 && r[|r| - 3] == ':'
      && IsDigits(r[..|r| - 3]) && Value(r[..|r| - 3]) == seconds / 60
      && IsDigits(r[|r| - 2..]) && Value(r[|r| - 2..]) == seconds % 60 < 60
  {
    var m, s := PadStart2(NatToString(seconds / 60)), PadStart2(NatToString(seconds % 60));
    var r := FormatTime(seconds);
    assert r == m + ":" + s;
    assert r[..|r| - 3] == m && r[|r| - 2..] == s;
    NatToStringValue(seconds / 60);
    NatToStringValue(seconds % 60);
    PadValue(seconds / 60);
    PadValue(seconds % 60);
  }

  /** Reading the face gives back the number of seconds it shows. */
  lemma FormatTimeRoundTrip(seconds: nat)
    ensures ParseTime(FormatTime(seconds)) == Some(seconds)
  {
    FormatTimeFields(seconds);
    ParseFields(FormatTime(seconds), seconds);
  }

  /** A text whose fields hold the minutes and the seconds of `seconds` reads as `seconds`. */
  lemma ParseFields(r: string, seconds: nat)
    requires |r| >= 4 && r[|r| - 3] == ':'
    requires IsDigits(r[..|r| - 3]) && Value(r[..|r| - 3]) == seconds / 60
    requires IsDigits(r[|r| - 2..]) && Value(r[|r| - 2..]) == seconds % 60
    ensures ParseTime(r) == Some(seconds)
  {
  }

  /** Different times show different faces. */
  lemma FormatTimeInjective(s: nat, t: nat)
    requires FormatTime(s) == FormatTime(t)
    ensures s == t
  {
    FormatTimeRoundTrip(s);
    FormatTimeRoundTrip(t);
  }

  /** Ten minutes show as `10:00`. */
  lemma TenMinutesFace()
    ensures FormatTime(600) == "10:00"
  {
    assert 600 / 60 == 10 && 600 % 60 == 0;
    assert PadStart2(NatToString(10)) == "10" by {
      assert DigitChar(0) == '0' && DigitChar(1) == '1';
      assert NatToString(10) == NatToString(1) + [DigitChar(0)];
    }
    assert PadStart2(NatToString(0)) == "00" by {
      assert DigitChar(0) == '0';
    }
  }

  /** 59 seconds show as `00:59`. */
  lemma UnderAMinuteFace()
    ensures FormatTime(59) == "00:59"
  {
    assert 59 / 60 == 0 && 59 % 60 == 59;
    assert PadStart2(NatToString(59)) == "59" by {
      assert DigitChar(5) == '5' && DigitChar(9) == '9';
      assert NatToString(59) == NatToString(5) + [DigitChar(9)];
    }
    assert PadStart2(NatToString(0)) == "00" by {
      assert DigitChar(0) == '0';
    }
  }

  /** isLowTime: under a minute left. */
  predicate IsLowTime(remaining: int) {
    remaining < 60
  }

  /** A clock is low on time exactly when its face shows no whole minutes. */
  lemma LowTimeFace(seconds: nat)
    ensures IsLowTime(seconds) <==> FormatTime(seconds)[..3] == "00:"
  {
    var m := NatToString(seconds / 60);
    var r := FormatTime(seconds);
    assert r[..|PadStart2(m)|] == PadStart2(m);
    if seconds < 60 {
      assert m == "0";
      assert r[..3] == "00:";
    } else if |m| < 2 {
      assert PadStart2(m) == "0" + m;
      assert r[..3][1] == m[0] != '0';
    } else {
      assert r[..3][0] == m[0] != '0';
    }
  }

  // ---------------------------------------------------------------------
  // Ticking.
  // ---------------------------------------------------------------------

  /** The result of one tick: the new remaining time and whether the timeout was reported. */
  datatype TickResult = TickResult(remaining: int, timedOut: bool)

  /** One second off the clock; at or below zero the clock stops at zero and reports the timeout. */
  function Tick(prev: int): (t: TickResult)
    ensures t.remaining >= 0
    ensures t.timedOut <==> prev <= 1
    ensures !t.timedOut ==> t.remaining == prev - 1
    ensures t.timedOut ==> t.remaining == 0
  {
    var newTime := prev - 1;
    if newTime <= 0 then TickResult(0, true) else TickResult(newTime, false)
  }

  /**
   * A clock: the `time` it was last given, the seconds left, whether it is
   * running, and how many timeouts it has reported.
   */
  datatype Clock = Clock(time: int, remaining: int, active: bool, timeouts: nat)

  /** A clock as first shown: it starts from the time it is given. */
  function NewClock(time: int, active: bool): Clock {
    Clock(time, time, active, 0)
  }

  /**
   * One second passes: the clock changes exactly while it is running and has
   * time left, never goes up or below zero, and reports the timeout exactly
   * when it takes the last second.
   */
  function Second(c: Clock): (c': Clock)
    ensures c'.remaining != c.remaining <==> c.active && c.remaining > 0
    ensures c.remaining >= 0 ==> 0 <= c'.remaining <= c.remaining
    ensures c'.timeouts == c.timeouts + if c.active && c.remaining == 1 then 1 else 0
    ensures c'.time == c.time && c'.active == c.active
  {
    if c.active && c.remaining > 0 then
      var t := Tick(c.remaining);
      c.(remaining := t.remaining, timeouts := c.timeouts + if t.timedOut then 1 else 0)
    else c
  }

  /** `n` seconds pass. */
  function Seconds(c: Clock, n: nat): Clock {
    if n == 0 then c else Second(Seconds(c, n - 1))
  }

  function Max(a: int, b: int): int {
    if a < b then b else a
  }

  /**
   * A running clock counts down one second at a time to zero and stays
   * there, never below, and reports the timeout once, exactly when it
   * reaches zero within the seconds that passed.
   */
  lemma {:induction false} RunDown(c: Clock, n: nat)
    requires c.active && c.remaining >= 0
    ensures Seconds(c, n).remaining == Max(c.remaining - n, 0)
    ensures Seconds(c, n).timeouts == c.timeouts + if 0 < c.remaining <= n then 1 else 0
    ensures Seconds(c, n).active && Seconds(c, n).time == c.time
  {
    if n > 0 {
      RunDown(c, n - 1);
    }
  }

  /** A stopped clock does not move. */
  lemma {:induction false} StoppedClock(c: Clock, n: nat)
    requires !c.active
    ensures Seconds(c, n) == c
  {
    if n > 0 {
      StoppedClock(c, n - 1);
    }
  }

  // ---------------------------------------------------------------------
  // Giving the clock a new time.
  // ---------------------------------------------------------------------

  /**
   * The clock as written: the remaining time is reset only when the time it
   * is given differs from the previous one; the same time again changes
   * nothing.
   */
  function PropChange(c: Clock, time: int): (c': Clock)
    ensures time == c.time ==> c' == c
    ensures time != c.time ==> c'.remaining == time
    ensures c'.time == time && c'.active == c.active && c'.timeouts == c.timeouts
  {
    if time != c.time then c.(time := time, remaining := time) else c
  }

  /** The running state follows who is to move and whether the game is decided. */
  function SetActive(c: Clock, active: bool): Clock {
    c.(active := active)
  }

  /**
   * A new game gives both clocks the same ten minutes they were given
   * before, so a clock that ran out in the previous game (it started at ten
   * minutes, ran for 600 seconds and was stopped) stays at zero: even
   * running, it never ticks again and never reports another timeout.
   */
  lemma SpentClockStaysSpent(n: nat)
    ensures var lost := SetActive(Seconds(NewClock(600, true), 600), false);
      lost.remaining == 0 && lost.timeouts == 1
    ensures var c := SetActive(PropChange(SetActive(Seconds(NewClock(600, true), 600), false), 600), true);
      Seconds(c, n).remaining == 0 && Seconds(c, n).timeouts == 1
  {
    RunDown(NewClock(600, true), 600);
    RunDown(SetActive(PropChange(SetActive(Seconds(NewClock(600, true), 600), false), 600), true), n);
  }

  /**
   * A clock restarted with a time starts from that time, whatever it showed
   * before. It differs from the clock as written exactly when it is given
   * the time it already had while showing something else.
   */
  function Restart(c: Clock, time: int): (c': Clock)
    ensures c'.remaining == time && c'.time == time
    ensures c'.active == c.active && c'.timeouts == c.timeouts
    ensures c' != PropChange(c, time) <==> time == c.time && c.remaining != time
  {
    c.(time := time, remaining := time)
  }

  /**
   * After a restart with ten minutes, a running clock reaches zero after
   * exactly 600 seconds and reports one timeout then, whatever state the
   * previous game left it in.
   */
  lemma RestartRunsDown(c: Clock, n: nat)
    requires c.active
    ensures Seconds(Restart(c, 600), n).remaining == Max(600 - n, 0)
    ensures Seconds(Restart(c, 600), n).timeouts == c.timeouts + if n >= 600 then 1 else 0
  {
    RunDown(Restart(c, 600), n);
  }
}
