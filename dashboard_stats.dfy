/** The figures `components/dashboard/DashboardStats.jsx` shows: the total study time in
    hours and minutes, the latest score, and the totals with their fallbacks. */
module DashboardStats {
  import opened Util
  import opened Text
  import Types
  import Dashboard

  /** `formatTimeSpent(seconds)`: `'0m'` for a missing or zero time; otherwise the whole
      minutes, written `h + 'h ' + (minutes % 60) + 'm'` from an hour on and `minutes + 'm'`
      below it. `Math.floor(x / 60)` is Dafny's `x / 60`, which also rounds down for negative
      `x`. */
  function FormatTimeSpent(seconds: Option<int>): string {
    if seconds.None? || seconds.value == 0 then "0m"
    else
      var minutes := seconds.value / 60;
      var hours := minutes / 60;
      if hours > 0 then IntToString(hours) + "h " + IntToString(minutes % 60) + "m"
      else IntToString(minutes) + "m"
  }

  /** Reads a duration written `<h>h <m>m` or `<m>m` back as a number of minutes. */
  function ParseDuration(t: string): Option<int> {
    if |t| >= 1 && t[|t| - 1] == 'm' then
      var body := t[..|t| - 1];
      var i := IndexOf(body, 'h');
      if i == |body| then ParseInt(body)
      else if i + 1 < |body| && body[i + 1] == ' ' then
        match (ParseInt(body[..i]), ParseInt(body[i + 2..]))
        case (Some(h), Some(m)) => Some(h * 60 + m)
        case _ => None
      else None
    else None
  }

  /** A rendered integer holds only digits and a minus sign. */
  lemma IntToStringChars(n: int)
    ensures forall i | 0 <= i < |IntToString(n)| :: IsDigit(IntToString(n)[i]) || IntToString(n)[i] == '-'
  {
    if n < 0 {
      var d := NatToString(-n);
      assert IntToString(n) == "-" + d;
      assert forall i | 1 <= i < |IntToString(n)| :: IntToString(n)[i] == d[i - 1];
    }
  }

  lemma NoHourMark(n: int)
    ensures 'h' !in IntToString(n)
  {
    IntToStringChars(n);
  }

  /** The displayed time always reads back as the whole minutes of the total: in the hour
      form, `h * 60 + (minutes % 60)` is the number of minutes. */
  lemma FormatTimeSpentRoundTrip(seconds: Option<int>)
    ensures ParseDuration(FormatTimeSpent(seconds)) == Some(if seconds.None? then 0 else seconds.value / 60)
  {
    if seconds.None? || seconds.value == 0 {
      MinuteFormRoundTrip(0);
      assert IntToString(0) + "m" == "0m";
    } else {
      var minutes := seconds.value / 60;
      var hours := minutes / 60;
      if hours > 0 {
        assert FormatTimeSpent(seconds) == IntToString(hours) + "h " + IntToString(minutes % 60) + "m";
        HourFormRoundTrip(hours, minutes % 60);
        MinutesSplit(minutes);
      } else {
        assert FormatTimeSpent(seconds) == IntToString(minutes) + "m";
        MinuteFormRoundTrip(minutes);
      }
    }
  }

  lemma MinutesSplit(m: int)
    ensures (m / 60) * 60 + m % 60 == m
  {
  }

  lemma HourFormRoundTrip(hours: int, minutes: int)
    ensures ParseDuration(IntToString(hours) + "h " + IntToString(minutes) + "m") == Some(hours * 60 + minutes)
  {
    NoHourMark(hours);
    HourFormParts(IntToString(hours), IntToString(minutes));
    IntToStringRoundTrip(hours);
    IntToStringRoundTrip(minutes);
  }

  /** The hour form splits at its first `h` into the two numbers it was written from. */
  lemma HourFormParts(hs: string, ms: string)
    requires 'h' !in hs
    ensures ParseDuration(hs + "h " + ms + "m") ==
      match (ParseInt(hs), ParseInt(ms))
      case (Some(h), Some(m)) => Some(h * 60 + m)
      case _ => None
  {
    var t := hs + "h " + ms + "m";
    var body := hs + ['h'] + ([' '] + ms);
    assert t == body + "m";
    assert t[..|t| - 1] == body;
    IndexOfAfter(hs, 'h', [' '] + ms);
    assert body[..|hs|] == hs && body[|hs| + 2..] == ms;
  }

  lemma MinuteFormRoundTrip(minutes: int)
    ensures ParseDuration(IntToString(minutes) + "m") == Some(minutes)
  {
    var body := IntToString(minutes);
    var t := body + "m";
    assert t[..|t| - 1] == body;
    NoHourMark(minutes);
    NoneBeforeEnd(body, 'h');
    IntToStringRoundTrip(minutes);
  }

  lemma NoneBeforeEnd(s: string, c: char)
    requires c !in s
    ensures IndexOf(s, c) == |s|
  {
  }

  /** The hour form is used exactly from 3600 seconds on. */
  lemma HourFormFromOneHour(seconds: int)
    ensures 'h' in FormatTimeSpent(Some(seconds)) <==> seconds >= 3600
  {
    var t := FormatTimeSpent(Some(seconds));
    if seconds == 0 {
      assert t == "0m";
    } else {
      var minutes := seconds / 60;
      var hours := minutes / 60;
      if hours > 0 {
        var hs := IntToString(hours);
        assert t[|hs|] == 'h';
      } else {
        NoHourMark(minutes);
        assert t == IntToString(minutes) + "m";
      }
    }
  }

  /** `getLatestScore()`: 0 without scores, otherwise `Math.round` of the first, which for the
      integer scores modelled here is the score itself. */
  function GetLatestScore(recentPerformance: Option<seq<int>>): (score: int)
    ensures recentPerformance.None? || recentPerformance.value == [] ==> score == 0
    ensures recentPerformance.Some? && recentPerformance.value != [] ==> score == recentPerformance.value[0]
  {
    if recentPerformance.None? || |recentPerformance.value| == 0 then 0 else recentPerformance.value[0]
  }

  /** On the dashboard the latest score is that of the first session fetched, which the quiz
      service orders newest first. */
  lemma LatestScoreIsFirstSession(sessions: seq<Types.QuizSession>)
    ensures GetLatestScore(Some(Take(Dashboard.Scores(sessions), 10))) == if sessions == [] then 0 else sessions[0].score
  {
  }

  /** `stats.totalQuizzes || 0`: a missing total shows as 0. */
  function ShownTotal(total: Option<int>): (shown: int)
    ensures total.None? ==> shown == 0
    ensures total.Some? ==> shown == total.value
  {
    if total.None? || total.value == 0 then 0 else total.value
  }

  /** `Math.round(x)`: the nearest integer, halves rounded up. */
  function Round(x: real): (r: int)
    ensures r as real <= x + 0.5 < r as real + 1.0
  {
    (x + 0.5).Floor
  }

  /** `Math.round(stats.averageScore || 0)`. */
  function ShownAverage(average: Option<real>): int {
    Round(if average.None? then 0.0 else average.value)
  }

  /** Rounding keeps an average in `[0, 100]` within `0..100` and is off by at most a half. */
  lemma ShownAverageBounds(average: real)
    requires 0.0 <= average <= 100.0
    ensures 0 <= ShownAverage(Some(average)) <= 100
    ensures -0.5 < ShownAverage(Some(average)) as real - average <= 0.5
  {
  }

  /** With every score in `0..100` the shown average is a whole percentage. */
  lemma ShownAverageOfSessions(sessions: seq<Types.QuizSession>)
    requires forall i | 0 <= i < |sessions| :: 0 <= sessions[i].score <= 100
    ensures 0 <= ShownAverage(Some(Dashboard.Mean(Dashboard.Scores(sessions)))) <= 100
  {
    if sessions != [] {
      Dashboard.MeanBounds(Dashboard.Scores(sessions), 0, 100);
    }
  }
}
