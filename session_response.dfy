/**
 * The accuracy session as the API returns it: copied fields, a duration
 * string, and start and end times hidden for full-song sessions.
 */
module SessionResponse {
  import opened Wrappers
  import opened Strings
  import opened Entities

  datatype UserInfo = UserInfo(username: string)

  datatype SongInfo = SongInfo(id: int, title: string)

  datatype AccuracySessionResponse = AccuracySessionResponse(
    sessionId: int,
    user: UserInfo,
    song: SongInfo,
    score: real,
    mode: string,
    startTime: Option<DateTime>,
    endTime: Option<DateTime>,
    duration: Option<string>,
    timestamp: Option<DateTime>)

  const DurationPrefix: string := "00:00:"

  /** The duration text: "00:00:" and the whole seconds between the two times, at least two digits; none unless both times exist. */
  function FormatDuration(start: Option<DateTime>, end: Option<DateTime>): (d: Option<string>)
    ensures d.Some? <==> start.Some? && end.Some?
  {
    if start.Some? && end.Some? then
      Some(DurationPrefix + FormatZeroPadded(DurationSeconds(start.value, end.value), 2))
    else None
  }

  /** The duration text always gives back the whole seconds, whatever their size. */
  lemma DurationParsesBack(start: DateTime, end: DateTime)
    ensures var d := FormatDuration(Some(start), Some(end)).value;
      && |d| >= 8 && d[..6] == DurationPrefix
      && ParseDecimal(d[6..]) == Some(DurationSeconds(start, end))
  {
    var secs := DurationSeconds(start, end);
    var d := FormatDuration(Some(start), Some(end)).value;
    assert d == DurationPrefix + FormatZeroPadded(secs, 2);
    assert d[6..] == FormatZeroPadded(secs, 2);
    FormatZeroPaddedRoundTrip(secs, 2);
    FormatZeroPaddedLength(secs, 2);
  }

  /**
   * Seconds are never carried into minutes: a duration of 60 to 99 seconds
   * keeps "00:00:" and shows the seconds' own two digits (75 seconds read
   * "00:00:75").
   */
  lemma DurationDoesNotRollOver(start: DateTime, end: DateTime)
    requires 60 <= DurationSeconds(start, end) < 100
    ensures var d := FormatDuration(Some(start), Some(end)).value;
      var secs := DurationSeconds(start, end);
      && d == DurationPrefix + [DigitChar(secs / 10), DigitChar(secs % 10)]
      && d[..6] == "00:00:"
  {
    var secs := DurationSeconds(start, end);
    TwoDigits(secs);
  }

  /** A two-digit number's text is its tens digit and its units digit. */
  lemma TwoDigits(n: nat)
    requires 10 <= n < 100
    ensures DigitsOf(n) == [DigitChar(n / 10), DigitChar(n % 10)]
  {
    assert DigitsOf(n / 10) == [DigitChar(n / 10)];
  }

  /** More than 99 seconds simply take more digits. */
  lemma LongDurationIsWider(start: DateTime, end: DateTime)
    requires DurationSeconds(start, end) >= 100
    ensures |FormatDuration(Some(start), Some(end)).value| > 8
  {
    var secs := DurationSeconds(start, end);
    FormatZeroPaddedLength(secs, 2);
    assert DigitsOf(secs) == DigitsOf(secs / 10) + [DigitChar(secs % 10)];
    assert DigitsOf(secs / 10) == DigitsOf(secs / 100) + [DigitChar((secs / 10) % 10)];
  }

  /** `fromEntity`. */
  function FromEntity(session: AccuracySession): (r: AccuracySessionResponse)
    reads session
    ensures r.sessionId == session.id && r.score == session.avgScore && r.mode == session.mode
    ensures r.timestamp == session.createdAt
    ensures r.user == UserInfo(session.user.username) && r.song == SongInfo(session.song.id, session.song.title)
    ensures r.duration == FormatDuration(session.startTime, session.endTime)
    ensures EqualsIgnoreCase(session.mode, "full") ==> r.startTime == None && r.endTime == None
    ensures !EqualsIgnoreCase(session.mode, "full") ==> r.startTime == session.startTime && r.endTime == session.endTime
  {
    var mode := session.mode;
    var formattedDuration := FormatDuration(session.startTime, session.endTime);
    AccuracySessionResponse(
      session.id,
      UserInfo(session.user.username),
      SongInfo(session.song.id, session.song.title),
      session.avgScore,
      session.mode,
      if EqualsIgnoreCase(mode, "full") then None else session.startTime,
      if EqualsIgnoreCase(mode, "full") then None else session.endTime,
      formattedDuration,
      session.createdAt)
  }

  /** A full-song session hides its times yet still reports the duration computed from them. */
  lemma FullModeHidesTimesOnly(session: AccuracySession)
    requires ToLowerCase(session.mode) == "full"
    requires session.startTime.Some? && session.endTime.Some?
    ensures FromEntity(session).startTime == None && FromEntity(session).endTime == None
    ensures FromEntity(session).duration.Some?
  {
    assert ToLowerCase("full") == "full";
    EqualsIgnoreCaseIsLowerEquality(session.mode, "full");
  }

  /** A session that starts and ends at the same instant reads "00:00:00". */
  lemma ZeroLengthSession(t: DateTime)
    ensures FormatDuration(Some(t), Some(t)) == Some("00:00:00")
  {
    assert DurationSeconds(t, t) == 0;
    var tail := FormatZeroPadded(0, 2);
    assert tail == "00" by {
      assert DigitsOf(0) == "0";
      assert Zeros(1) == "0" + Zeros(0);
    }
    assert DurationPrefix + "00" == "00:00:00";
  }
}
