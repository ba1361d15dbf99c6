/** A time range that repeats every five minutes within the hour. Times are
    the millisecond offsets that `time.Parse` with the layout "04:05.000"
    yields from minute and second (the parse fixes the rest of the date); a
    threshold is a duration in milliseconds. The ticker is reduced to whether
    it is active and its interval, and callbacks to the identities they are
    registered under. */
module TimeRange {
  import opened Common

  /** Milliseconds in a second and in a minute. */
  const Second: int := 1000
  const Minute: int := 60 * Second
  const Hour: int := 60 * Minute

  /** How many ranges one `Load` adds, and how far apart they start. */
  const Repeats: nat := 12
  const Spacing: int := 5 * Minute

  /** One window, bounds included. */
  datatype Range = Range(start: int, finish: int)

  predicate Digit(c: char) {
    '0' <= c <= '9'
  }

  /** The pattern `^0[0-9]:[0-5][0-9]$`: minutes 00 to 09, seconds 00 to 59. */
  predicate ValidClock(s: string) {
    |s| == 5 && s[0] == '0' && Digit(s[1]) && s[2] == ':' && '0' <= s[3] <= '5' && Digit(s[4])
  }

  function DigitValue(c: char): int
    requires Digit(c)
  {
    c as int - '0' as int
  }

  function DigitChar(d: int): (c: char)
    requires 0 <= d <= 9
    ensures Digit(c) && DigitValue(c) == d
  {
    ('0' as int + d) as char
  }

  /** The offset `time.Parse` gives a valid clock text with ".000" appended. */
  function ClockMillis(s: string): (ms: int)
    requires ValidClock(s)
    ensures 0 <= ms < 10 * Minute && ms % Second == 0
  {
    (DigitValue(s[1]) * 60 + DigitValue(s[3]) * 10 + DigitValue(s[4])) * Second
  }

  /** The clock text of a whole-second offset in the first ten minutes, as
      the layout "04:05" renders it. */
  function ClockText(ms: int): (s: string)
    requires 0 <= ms < 10 * Minute && ms % Second == 0
    ensures ValidClock(s)
  {
    var secs := ms / Second;
    [ '0', DigitChar(secs / 60), ':', DigitChar(secs % 60 / 10), DigitChar(secs % 10) ]
  }

  /** Parsing and rendering are inverse on valid clock texts. */
  lemma ClockRoundTrip(s: string)
    requires ValidClock(s)
    ensures ClockText(ClockMillis(s)) == s
  {
    var m, t, u := DigitValue(s[1]), DigitValue(s[3]), DigitValue(s[4]);
    var secs := m * 60 + t * 10 + u;
    assert ClockMillis(s) / Second == secs;
    assert secs / 60 == m && secs % 60 == t * 10 + u;
    assert secs % 60 / 10 == t && secs % 10 == u;
  }

  lemma MillisRoundTrip(ms: int)
    requires 0 <= ms < 10 * Minute && ms % Second == 0
    ensures ClockMillis(ClockText(ms)) == ms
  {
    var secs := ms / Second;
    assert secs / 60 * 60 + secs % 60 / 10 * 10 + secs % 10 == secs;
  }

  /** The `i`-th range `Load` builds: both bounds moved by `i` times five
      minutes, then widened by the threshold on each side. */
  function Shifted(first: int, last: int, th: int, i: int): (r: Range)
    ensures r.finish - r.start == last - first + 2 * th
  {
    Range(first + i * Spacing - th, last + i * Spacing + th)
  }

  /** The threshold: the first variadic argument, or zero. */
  function Threshold(threshold: seq<int>): (th: int)
    ensures |threshold| > 0 ==> th == threshold[0]
    ensures threshold == [] ==> th == 0
  {
    if |threshold| > 0 then threshold[0] else 0
  }

  /** The ranges of one `Load`, the first `n` of them. */
  function Windows(first: int, last: int, th: int, n: nat): (ws: seq<Range>)
    ensures |ws| == n
    ensures forall i | 0 <= i < n :: ws[i] == Shifted(first, last, th, i)
  {
    if n == 0 then [] else Windows(first, last, th, n - 1) + [Shifted(first, last, th, n - 1)]
  }

  /** Consecutive windows are five minutes apart at both ends; with a zero
      threshold, a first window starting in the first five minutes keeps
      every window's start within the hour. */
  lemma {:induction false} WindowsSpacing(first: int, last: int, th: int)
    ensures forall i | 0 <= i < Repeats - 1 ::
      Windows(first, last, th, Repeats)[i + 1].start == Windows(first, last, th, Repeats)[i].start + Spacing &&
      Windows(first, last, th, Repeats)[i + 1].finish == Windows(first, last, th, Repeats)[i].finish + Spacing
    ensures 0 <= first < Spacing && th == 0 ==>
      forall i | 0 <= i < Repeats :: 0 <= Windows(first, last, th, Repeats)[i].start < Hour
  {
    var ws := Windows(first, last, th, Repeats);
    forall i | 0 <= i < Repeats - 1
      ensures ws[i + 1].start == ws[i].start + Spacing && ws[i + 1].finish == ws[i].finish + Spacing
    {
      assert ws[i + 1] == Shifted(first, last, th, i + 1) && ws[i] == Shifted(first, last, th, i);
    }
    if 0 <= first < Spacing && th == 0 {
      forall i | 0 <= i < Repeats
        ensures 0 <= ws[i].start < Hour
      {
        assert ws[i] == Shifted(first, last, th, i);
        assert 0 <= i * Spacing <= 11 * Spacing;
      }
    }
  }

  /** The test of each tick: the current time, parsed back from its minute,
      second and millisecond, lies in a window, bounds included. The parse
      puts the time in year 0, never Go's zero time, so the test compares
      against it. Such a time is below one hour. */
  predicate Entered(ranges: seq<Range>, current: int) {
    exists i | 0 <= i < |ranges| :: ranges[i].start <= current <= ranges[i].finish
  }

  /** A window that runs past the hour is never entered: with start and end
      "09:00" the window due at minute 4 of each hour was built for minute
      64, which the clock never shows. */
  lemma WrappedWindowMissed()
    ensures ValidClock("09:00")
    ensures var ws := Windows(ClockMillis("09:00"), ClockMillis("09:00"), 0, Repeats);
      ws[Repeats - 1] == Range(64 * Minute, 64 * Minute) &&
      !Entered(ws, 4 * Minute)
  {
    var first := ClockMillis("09:00");
    assert first == 9 * Minute;
    var ws := Windows(first, first, 0, Repeats);
    forall i | 0 <= i < |ws|
      ensures !(ws[i].start <= 4 * Minute <= ws[i].finish)
    {
      assert ws[i] == Shifted(first, first, 0, i);
    }
  }

  /** The test as evidently meant: a window that runs past the hour also
      covers the same minute and second of the next hour. */
  predicate EnteredIntended(ranges: seq<Range>, current: int) {
    exists i | 0 <= i < |ranges| ::
      ranges[i].start <= current <= ranges[i].finish || ranges[i].start <= current + Hour <= ranges[i].finish
  }

  /** With the intended test every five-minute repeat of the first window's
      start, taken within the hour, is entered, whatever the start. */
  lemma EveryRepeatEntered(first: int, last: int, th: int, k: nat)
    requires 0 <= first <= last < 10 * Minute && th >= 0 && k < Repeats
    ensures EnteredIntended(Windows(first, last, th, Repeats), (first + k * Spacing) % Hour)
  {
    var ws := Windows(first, last, th, Repeats);
    assert ws[k] == Shifted(first, last, th, k);
    var t := first + k * Spacing;
    assert 0 <= t < 2 * Hour;
    if t < Hour {
      assert t % Hour == t;
    } else {
      assert t % Hour == t - Hour;
    }
  }

  class TimeRange {
    var ranges: seq<Range>
    var onEnter: seq<nat>
    var onExit: seq<nat>
    /** The ticker: whether it runs, and its interval in milliseconds. */
    var active: bool
    var interval: int
    /** Set by a tick that found the current time in a window, cleared when
        the exit timer fires. */
    var entered: bool

    /** `New`: no ranges or callbacks, a stopped ticker of one second. */
    constructor ()
      ensures ranges == [] && onEnter == [] && onExit == []
      ensures !active && interval == Second && !entered
    {
      ranges := [];
      onEnter := [];
      onExit := [];
      active := false;
      interval := Second;
      entered := false;
    }

    /** One tick at the given time: unless already entered, the windows are
        searched in order, and the first one that holds the time sets the
        flag and returns the enter callbacks to run. */
    method Tick(current: int) returns (fired: seq<nat>)
      modifies this`entered
      ensures old(entered) ==> entered && fired == []
      ensures !old(entered) ==> (entered <==> Entered(ranges, current))
      ensures !old(entered) && Entered(ranges, current) ==> fired == onEnter
      ensures !Entered(ranges, current) ==> fired == []
    {
      if entered {
        return [];
      }
      var i := 0;
      while i < |ranges|
        invariant 0 <= i <= |ranges|
        invariant forall j | 0 <= j < i :: !(ranges[j].start <= current <= ranges[j].finish)
      {
        if ranges[i].start <= current <= ranges[i].finish {
          entered := true;
          return onEnter;
        }
        i := i + 1;
      }
      return [];
    }

    /** The exit timer firing: the flag is cleared and the exit callbacks
        are returned to run. */
    method Expire() returns (fired: seq<nat>)
      modifies this`entered
      ensures !entered && fired == onExit
    {
      entered := false;
      return onExit;
    }

    /** `Load`: invalid texts are refused and nothing is added; otherwise
        twelve windows, five minutes apart, are appended to the ranges. */
    method Load(start: string, end: string, threshold: seq<int>) returns (err: Option<Error>)
      modifies this`ranges
      ensures !(ValidClock(start) && ValidClock(end)) ==>
        err == Some(Msg("Invalid time range format")) && ranges == old(ranges)
      ensures ValidClock(start) && ValidClock(end) ==>
        err.None? && ranges == old(ranges) + Windows(ClockMillis(start), ClockMillis(end), Threshold(threshold), Repeats)
    {
      if !(ValidClock(start) && ValidClock(end)) {
        return Some(Msg("Invalid time range format"));
      }
      var firstStart := ClockMillis(start);
      var firstEnd := ClockMillis(end);
      var th := 0;
      if |threshold| > 0 {
        th := threshold[0];
      }
      AddWindows(firstStart, firstEnd, th);
      return None;
    }

    /** The loop of `Load`: the twelve windows, in order. */
    method AddWindows(firstStart: int, firstEnd: int, th: int)
      modifies this`ranges
      ensures ranges == old(ranges) + Windows(firstStart, firstEnd, th, Repeats)
    {
      ghost var before := ranges;
      var i := 0;
      while i < 12
        invariant 0 <= i <= 12
        invariant ranges == before + Windows(firstStart, firstEnd, th, i)
      {
        var addDuration := i * 5 * Minute;
        ranges := ranges + [Range(firstStart + addDuration - th, firstEnd + addDuration + th)];
        i := i + 1;
      }
    }

    /** `Interval`: the ticker's interval. */
    method Interval(i: int) returns (tr: TimeRange)
      modifies this`interval
      ensures interval == i && tr == this
    {
      interval := i;
      return this;
    }

    /** `OnEnter`: the callback is added after those already registered. */
    method OnEnter(fn: nat) returns (tr: TimeRange)
      modifies this`onEnter
      ensures onEnter == old(onEnter) + [fn] && tr == this
    {
      onEnter := onEnter + [fn];
      return this;
    }

    /** `OnExit`: the callback is added after those already registered. */
    method OnExit(fn: nat) returns (tr: TimeRange)
      modifies this`onExit
      ensures onExit == old(onExit) + [fn] && tr == this
    {
      onExit := onExit + [fn];
      return this;
    }

    /** `Start`: refused while the ticker runs. */
    method Start() returns (err: Option<Error>)
      modifies this`active
      ensures old(active) ==> err == Some(Msg("Ticker already started")) && active
      ensures !old(active) ==> err.None? && active
    {
      if active {
        return Some(Msg("Ticker already started"));
      }
      active := true;
      return None;
    }

    /** `IsStarted`. */
    function IsStarted(): (b: bool)
      reads this`active
      ensures b <==> active
    {
      active
    }

    /** `Stop`: refused while the ticker is stopped. */
    method Stop() returns (err: Option<Error>)
      modifies this`active
      ensures !old(active) ==> err == Some(Msg("Ticker not started")) && !active
      ensures old(active) ==> err.None? && !active
    {
      if !active {
        return Some(Msg("Ticker not started"));
      }
      active := false;
      return None;
    }

    /** `Ranges`. */
    function Ranges(): (rs: seq<Range>)
      reads this`ranges
      ensures rs == ranges
    {
      ranges
    }
  }
}
