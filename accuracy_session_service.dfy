/**
 * The accuracy-mode service: starting a session, storing the pose scorer's
 * verdict for one frame, grading a finished session from its stored tags,
 * and assembling feedback for its lowest-scoring frames.
 */
module AccuracySessionService {
  import opened Wrappers
  import opened Strings
  import opened Entities
  import opened Storage
  import opened VideoService

  const ExpertFramesDir: string := "expert_frames/"

  datatype ServiceError =
    | IllegalArgument(message: string)
    | IllegalState(message: string)
    | SessionNotFound(message: string)
    | SongNotFound(message: string)
    | FlaskHttpError(status: int)         // a 4xx/5xx reply, thrown by the HTTP client
    | FlaskReplyIncomplete                // a non-2xx status, no body, or no "score" or "feedback" field
    | FlaskReplyMistyped                  // "score" is not a number (the cast fails or it is null), or "feedback" is neither a string nor null
    | FromVideo(error: VideoError)

  // ----- starting a session -----

  /** The mode a new session is stored with: "full" or "highlight" in any case, lowercased; None for any other mode. */
  function AcceptedMode(mode: string): (r: Option<string>)
    ensures r.Some? <==> EqualsIgnoreCase("full", mode) || EqualsIgnoreCase("highlight", mode)
    ensures r.Some? ==> r.value == "full" || r.value == "highlight"
    ensures r.Some? ==> EqualsIgnoreCase(r.value, mode)
  {
    EqualsIgnoreCaseIsLowerEquality("full", mode);
    EqualsIgnoreCaseIsLowerEquality("highlight", mode);
    assert ToLowerCase("full") == "full";
    assert ToLowerCase("highlight") == "highlight";
    if EqualsIgnoreCase("full", mode) || EqualsIgnoreCase("highlight", mode) then
      EqualsIgnoreCaseIsLowerEquality(ToLowerCase(mode), mode);
      Some(ToLowerCase(mode))
    else None
  }

  /**
   * `createAccuracySession`: `user` and `song` are the lookups by name and
   * id, `now` the clock reading. A new session starts and ends at `now`
   * with a zero average.
   */
  method CreateAccuracySession(user: Option<AppUser>, username: string, song: Option<Song>, songId: int,
                               mode: string, newId: int, now: DateTime)
    returns (r: Result<AccuracySession, ServiceError>)
    ensures user.None? ==> r == Failure(IllegalArgument("User not found: " + username))
    ensures user.Some? && song.None? ==> r == Failure(IllegalArgument("Song not found: " + IntToString(songId)))
    ensures user.Some? && song.Some? && AcceptedMode(mode).None? ==>
      r == Failure(IllegalArgument("Invalid accuracy mode: " + mode))
    ensures user.Some? && song.Some? && AcceptedMode(mode).Some? ==>
      && r.Success? && fresh(r.value)
      && r.value.id == newId && r.value.user == user.value && r.value.song == song.value
      && r.value.mode == AcceptedMode(mode).value && r.value.avgScore == 0.0
      && r.value.startTime == Some(now) && r.value.endTime == Some(now)
      && !r.value.feedbackCompleted && r.value.resultLevel == None
  {
    if user.None? {
      return Failure(IllegalArgument("User not found: " + username));
    }
    if song.None? {
      return Failure(IllegalArgument("Song not found: " + IntToString(songId)));
    }
    var stored := AcceptedMode(mode);
    if stored.None? {
      return Failure(IllegalArgument("Invalid accuracy mode: " + mode));
    }
    var session := new AccuracySession(newId, user.value, song.value, stored.value, 0.0, Some(now), Some(now), None);
    r := Success(session);
  }

  // ----- storing one frame's verdict -----

  datatype JsonValue = JNumber(n: real) | JString(s: string) | JNull | JOther

  /** The pose scorer's HTTP reply: its status and, when it parsed, its JSON object. */
  datatype FlaskReply = FlaskReply(status: int, body: Option<map<string, JsonValue>>)

  /** The frame evaluation built from the scorer's reply, or why the reply is refused. */
  function EvaluationFromReply(reply: FlaskReply, sessionId: int, frameIndex: int, newId: int): (r: Result<FrameEvaluation, ServiceError>)
    ensures r.Success? <==>
      && 200 <= reply.status < 300 && reply.body.Some?
      && "score" in reply.body.value && "feedback" in reply.body.value
      && reply.body.value["score"].JNumber?
      && (reply.body.value["feedback"].JString? || reply.body.value["feedback"].JNull?)
    ensures r.Success? ==>
      && r.value.id == newId && r.value.sessionId == sessionId && r.value.frameIndex == frameIndex
      && r.value.score == reply.body.value["score"].n
      && r.value.resultTag == (if reply.body.value["feedback"].JString? then Some(reply.body.value["feedback"].s) else None)
      && r.value.gptFeedback == None
    ensures 400 <= reply.status < 600 ==> r == Failure(FlaskHttpError(reply.status))
  {
    if 400 <= reply.status < 600 then Failure(FlaskHttpError(reply.status))
    else if !(200 <= reply.status < 300) || reply.body.None?
            || "score" !in reply.body.value || "feedback" !in reply.body.value then Failure(FlaskReplyIncomplete)
    else
      var body := reply.body.value;
      match body["score"]
      case JNumber(score) =>
        (match body["feedback"]
         case JString(tag) => Success(FrameEvaluation(newId, sessionId, frameIndex, score, Some(tag), None))
         case JNull => Success(FrameEvaluation(newId, sessionId, frameIndex, score, None, None))
         case _ => Failure(FlaskReplyMistyped))
      case _ => Failure(FlaskReplyMistyped)
  }

  /**
   * `analyzeAndStoreFrameStep`: after the user, song and session lookups,
   * the scorer's reply becomes a new frame evaluation row with id `newId`,
   * the identity key the table generates, so no row has it yet.
   */
  method AnalyzeAndStoreFrameStep(repo: FrameEvaluationRepository, user: Option<AppUser>, username: string,
                                  song: Option<Song>, songId: int, sessionExists: bool, sessionId: int,
                                  frameIndex: int, reply: FlaskReply, newId: int)
    returns (r: Result<FrameEvaluation, ServiceError>)
    requires newId !in repo.rows
    modifies repo
    ensures user.None? ==> r == Failure(IllegalArgument("User not found: " + username))
    ensures user.Some? && song.None? ==> r == Failure(SongNotFound("Song not found: " + IntToString(songId)))
    ensures user.Some? && song.Some? && !sessionExists ==>
      r == Failure(IllegalArgument("Session not found: " + IntToString(sessionId)))
    ensures user.Some? && song.Some? && sessionExists ==> r == EvaluationFromReply(reply, sessionId, frameIndex, newId)
    ensures repo.rows == if r.Success? then old(repo.rows)[newId := r.value] else old(repo.rows)
    ensures r.Success? ==> repo.rows.Keys == old(repo.rows).Keys + {newId} && |repo.rows| == |old(repo.rows)| + 1
  {
    if user.None? {
      return Failure(IllegalArgument("User not found: " + username));
    }
    if song.None? {
      return Failure(SongNotFound("Song not found: " + IntToString(songId)));
    }
    if !sessionExists {
      return Failure(IllegalArgument("Session not found: " + IntToString(sessionId)));
    }
    r := EvaluationFromReply(reply, sessionId, frameIndex, newId);
    if r.Success? {
      repo.Save(r.value);
    }
  }

  // ----- grading -----

  datatype Tier = Perfect | Good | Normal | Bad | Miss

  /** The tier a stored tag counts toward: the four names in any case, everything else (no tag included) a miss. */
  function TierOf(tag: Option<string>): (t: Tier)
    ensures t == Perfect <==> tag.Some? && ToLowerCase(tag.value) == "perfect"
    ensures t == Good <==> tag.Some? && ToLowerCase(tag.value) == "good"
    ensures t == Normal <==> tag.Some? && ToLowerCase(tag.value) == "normal"
    ensures t == Bad <==> tag.Some? && ToLowerCase(tag.value) == "bad"
  {
    match tag
    case None => Miss
    case Some(s) =>
      EqualsIgnoreCaseIsLowerEquality("perfect", s);
      EqualsIgnoreCaseIsLowerEquality("good", s);
      EqualsIgnoreCaseIsLowerEquality("normal", s);
      EqualsIgnoreCaseIsLowerEquality("bad", s);
      assert ToLowerCase("perfect") == "perfect";
      assert ToLowerCase("good") == "good";
      assert ToLowerCase("normal") == "normal";
      assert ToLowerCase("bad") == "bad";
      if EqualsIgnoreCase("perfect", s) then Perfect
      else if EqualsIgnoreCase("good", s) then Good
      else if EqualsIgnoreCase("normal", s) then Normal
      else if EqualsIgnoreCase("bad", s) then Bad
      else Miss
  }

  /** The scorer's own tag names, the absent tag and the upper-case "WORST" all count as described. */
  lemma TierOfScorerTags()
    ensures TierOf(Some("Perfect")) == Perfect && TierOf(Some("Good")) == Good
    ensures TierOf(Some("Normal")) == Normal && TierOf(Some("Bad")) == Bad
    ensures TierOf(Some("Worst")) == Miss && TierOf(Some("WORST")) == Miss && TierOf(None) == Miss
  {
    assert ToLowerCase("Perfect") == "perfect";
    assert ToLowerCase("Good") == "good";
    assert ToLowerCase("Normal") == "normal";
    assert ToLowerCase("Bad") == "bad";
    assert ToLowerCase("Worst") == "worst";
    assert ToLowerCase("WORST") == "worst";
  }

  datatype Tally = Tally(perfect: nat, good: nat, normal: nat, bad: nat, miss: nat)

  function Count(t: Tally, tier: Tier): Tally
  {
    match tier
    case Perfect => t.(perfect := t.perfect + 1)
    case Good => t.(good := t.good + 1)
    case Normal => t.(normal := t.normal + 1)
    case Bad => t.(bad := t.bad + 1)
    case Miss => t.(miss := t.miss + 1)
  }

  function TotalFrames(t: Tally): nat
  {
    t.perfect + t.good + t.normal + t.bad + t.miss
  }

  /** The five counters after the loop over `frames`. */
  function TallyOf(frames: seq<FrameEvaluation>): Tally
  {
    if |frames| == 0 then Tally(0, 0, 0, 0, 0)
    else Count(TallyOf(frames[..|frames| - 1]), TierOf(frames[|frames| - 1].resultTag))
  }

  /** The tier of each frame, in order. */
  function Tiers(frames: seq<FrameEvaluation>): seq<Tier>
  {
    seq(|frames|, i requires 0 <= i < |frames| => TierOf(frames[i].resultTag))
  }

  /** Every frame is counted exactly once. */
  lemma {:induction false} TallyTotal(frames: seq<FrameEvaluation>)
    ensures TotalFrames(TallyOf(frames)) == |frames|
  {
    if |frames| > 0 {
      TallyTotal(frames[..|frames| - 1]);
    }
  }

  /** Each counter is the number of frames whose tag falls in its tier. */
  lemma {:induction false} TallyIsHistogram(frames: seq<FrameEvaluation>)
    ensures var t := TallyOf(frames); var h := multiset(Tiers(frames));
      t.perfect == h[Perfect] && t.good == h[Good] && t.normal == h[Normal] && t.bad == h[Bad] && t.miss == h[Miss]
  {
    if |frames| > 0 {
      var init := frames[..|frames| - 1];
      var tier := TierOf(frames[|frames| - 1].resultTag);
      TallyIsHistogram(init);
      TiersStep(frames);
      var h0 := multiset(Tiers(init));
      assert multiset(Tiers(frames)) == h0 + multiset{tier};
      assert TallyOf(frames) == Count(TallyOf(init), tier);
    }
  }

  lemma TiersStep(frames: seq<FrameEvaluation>)
    requires |frames| > 0
    ensures Tiers(frames) == Tiers(frames[..|frames| - 1]) + [TierOf(frames[|frames| - 1].resultTag)]
  {
    var init := frames[..|frames| - 1];
    var a, b := Tiers(frames), Tiers(init) + [TierOf(frames[|frames| - 1].resultTag)];
    assert |a| == |b|;
    forall j | 0 <= j < |a|
      ensures a[j] == b[j]
    {
      if j < |init| {
        assert init[j] == frames[j];
      }
    }
  }

  /** `4·perfect + 3·good + 2·normal + bad`. */
  function TotalScore(t: Tally): nat
  {
    4 * t.perfect + 3 * t.good + 2 * t.normal + t.bad
  }

  /** `totalScore / (3·frames) · 100`, and 0 for no frames. */
  function Percentage(t: Tally): real
  {
    if TotalFrames(t) == 0 then 0.0
    else (TotalScore(t) as real) / ((TotalFrames(t) * 3) as real) * 100.0
  }

  /** Comparing the percentage with a threshold is an integer comparison. */
  lemma PercentageAtLeast(t: Tally, k: int)
    requires TotalFrames(t) > 0
    ensures Percentage(t) >= k as real <==> 100 * TotalScore(t) >= k * (TotalFrames(t) * 3)
  {
    var n := TotalFrames(t);
    assert Percentage(t) == (TotalScore(t) as real) / ((n * 3) as real) * 100.0;
    ThresholdOnIntegers(TotalScore(t), n * 3, k);
  }

  /** The same comparison for any integer dividend and positive divisor. */
  lemma ThresholdOnIntegers(s: int, d: int, k: int)
    requires d > 0
    ensures (s as real) / (d as real) * 100.0 >= k as real <==> 100 * s >= k * d
  {
    QuotientAtLeast(s as real, d as real, k as real);
    IntToRealProduct(k, d);
    assert 100.0 * (s as real) == (100 * s) as real;
  }

  /** A hundredfold quotient reaches `k` exactly when a hundred times the dividend reaches `k` times the divisor. */
  lemma QuotientAtLeast(s: real, d: real, k: real)
    requires d > 0.0
    ensures s / d * 100.0 >= k <==> 100.0 * s >= k * d
  {
    var q := s / d;
    assert q * d == s;
    if q * 100.0 >= k {
      ScaleAtLeast(q * 100.0, k, d);
    } else {
      ScaleStrict(k, q * 100.0, d);
    }
  }

  /** Converting to real commutes with multiplication. */
  lemma {:induction false} IntToRealProduct(x: int, y: nat)
    ensures (x as real) * (y as real) == (x * y) as real
  {
    if y > 0 {
      IntToRealProduct(x, y - 1);
    }
  }

  /** The percentage never drops below 0 and reaches 400/3 when every frame is perfect, so it can exceed 100. */
  lemma PercentageRange(t: Tally)
    ensures 0.0 <= Percentage(t)
    ensures 3.0 * Percentage(t) <= 400.0
    ensures TotalFrames(t) > 0 && t.perfect == TotalFrames(t) ==> 3.0 * Percentage(t) == 400.0
  {
    if TotalFrames(t) > 0 {
      var n := TotalFrames(t);
      PercentageAtLeast(t, 0);
      PercentageAtLeast(t, 134);
      assert !(Percentage(t) >= 134.0);
      QuotientBelow(TotalScore(t) as real, (n * 3) as real, 400.0 / 3.0);
      if t.perfect == n {
        QuotientIs(TotalScore(t) as real, (n * 3) as real, 400.0 / 3.0);
      }
    }
  }

  /** The hundredfold quotient stays at or below `k` when a hundred times the dividend does not exceed `k` times the divisor. */
  lemma QuotientBelow(s: real, d: real, k: real)
    requires d > 0.0
    ensures 100.0 * s <= k * d ==> s / d * 100.0 <= k
  {
    var q := s / d;
    assert q * d == s;
    if q * 100.0 > k {
      ScaleStrict(q * 100.0, k, d);
    }
  }

  /** The hundredfold quotient is `k` when a hundred times the dividend is `k` times the divisor. */
  lemma QuotientIs(s: real, d: real, k: real)
    requires d > 0.0
    ensures 100.0 * s == k * d ==> s / d * 100.0 == k
  {
    QuotientBelow(s, d, k);
    QuotientAtLeast(s, d, k);
  }

  lemma ScaleAtLeast(x: real, y: real, d: real)
    requires x >= y && d > 0.0
    ensures x * d >= y * d
  {
    if x > y {
      ScaleStrict(x, y, d);
    }
  }

  lemma ScaleStrict(x: real, y: real, d: real)
    requires x > y && d > 0.0
    ensures x * d > y * d
  {
  }

  /** `resultLevel` by descending thresholds. */
  function GradeOf(pct: real): (g: string)
    ensures g in {"Perfect", "Good", "Normal", "Bad", "Miss"}
    ensures g == "Perfect" <==> pct >= 80.0
    ensures g == "Good" <==> 60.0 <= pct < 80.0
    ensures g == "Normal" <==> 50.0 <= pct < 60.0
    ensures g == "Bad" <==> 40.0 <= pct < 50.0
    ensures g == "Miss" <==> pct < 40.0
  {
    if pct >= 80.0 then "Perfect"
    else if pct >= 60.0 then "Good"
    else if pct >= 50.0 then "Normal"
    else if pct >= 40.0 then "Bad"
    else "Miss"
  }

  /** Position of a grade from "Miss" (0) to "Perfect" (4). */
  function GradeRank(g: string): nat
  {
    if g == "Perfect" then 4 else if g == "Good" then 3 else if g == "Normal" then 2 else if g == "Bad" then 1 else 0
  }

  /** A higher percentage never earns a lower grade. */
  lemma GradeMonotone(p: real, q: real)
    requires p <= q
    ensures GradeRank(GradeOf(p)) <= GradeRank(GradeOf(q))
  {
  }

  /** The grade of a session, stated on the integer counters alone. */
  lemma GradeByCounts(t: Tally)
    requires TotalFrames(t) > 0
    ensures GradeOf(Percentage(t)) == "Perfect" <==> 100 * TotalScore(t) >= 240 * TotalFrames(t)
    ensures GradeOf(Percentage(t)) == "Miss" <==> 100 * TotalScore(t) < 120 * TotalFrames(t)
    ensures GradeOf(Percentage(t)) == "Good" <==>
      180 * TotalFrames(t) <= 100 * TotalScore(t) < 240 * TotalFrames(t)
  {
    PercentageAtLeast(t, 80);
    PercentageAtLeast(t, 60);
    PercentageAtLeast(t, 40);
  }

  datatype Timestamp = Formatted(at: DateTime) | Unknown

  datatype SummarySong = SummarySong(id: int, title: string)

  datatype AccuracySummary = AccuracySummary(
    sessionId: int,
    song: SummarySong,
    score: real,
    timestamp: Timestamp,
    perfect: nat,
    good: nat,
    normal: nat,
    bad: nat,
    miss: nat,
    resultLevel: string)

  const NoEvaluationDataMessage: string :=
    "No evaluation data found. The session may not have processed any frames. Please ensure that analysis has been performed."

  function InvalidSessionMessage(sessionId: int): string
  {
    "Invalid sessionId provided: " + IntToString(sessionId) + ". "
    + "Accuracy session not found for sessionId: " + IntToString(sessionId)
  }

  /**
   * `getAccuracySummary`: `session` is the lookup by `sessionId` (null when
   * absent) and `frames` the evaluations stored for it. The grade is written
   * back to the session and returned with the five counters.
   */
  method GetAccuracySummary(session: AccuracySession?, sessionId: int, frames: seq<FrameEvaluation>)
    returns (r: Result<AccuracySummary, ServiceError>)
    modifies session
    ensures session == null ==> r == Failure(IllegalArgument(InvalidSessionMessage(sessionId)))
    ensures session != null && |frames| == 0 ==>
      r == Failure(IllegalState(NoEvaluationDataMessage)) && session.resultLevel == old(session.resultLevel)
    ensures session != null && |frames| > 0 ==>
      var t := TallyOf(frames);
      && r.Success?
      && r.value.perfect == t.perfect && r.value.good == t.good && r.value.normal == t.normal
      && r.value.bad == t.bad && r.value.miss == t.miss
      && r.value.resultLevel == GradeOf(Percentage(t))
      && session.resultLevel == Some(r.value.resultLevel)
      && r.value.sessionId == session.id
      && r.value.song == SummarySong(session.song.id, session.song.title)
      && r.value.score == session.avgScore
      && r.value.timestamp == (if session.createdAt.Some? then Formatted(session.createdAt.value) else Unknown)
    ensures session != null ==>
      && session.user == old(session.user) && session.song == old(session.song) && session.mode == old(session.mode)
      && session.avgScore == old(session.avgScore) && session.startTime == old(session.startTime)
      && session.endTime == old(session.endTime) && session.createdAt == old(session.createdAt)
      && session.feedbackCompleted == old(session.feedbackCompleted)
  {
    if session == null {
      return Failure(IllegalArgument(InvalidSessionMessage(sessionId)));
    }
    if |frames| == 0 {
      return Failure(IllegalState(NoEvaluationDataMessage));
    }
    var perfect, good, normal, bad, miss := 0, 0, 0, 0, 0;
    var i := 0;
    while i < |frames|
      invariant 0 <= i <= |frames|
      invariant TallyOf(frames[..i]) == Tally(perfect, good, normal, bad, miss)
    {
      assert frames[..i + 1][..i] == frames[..i];
      var feedback := frames[i].resultTag;
      var tier := TierOf(feedback);
      if tier == Perfect { perfect := perfect + 1; }
      else if tier == Good { good := good + 1; }
      else if tier == Normal { normal := normal + 1; }
      else if tier == Bad { bad := bad + 1; }
      else { miss := miss + 1; }
      i := i + 1;
    }
    assert frames[..i] == frames;
    var t := Tally(perfect, good, normal, bad, miss);
    var resultLevel := GradeOf(Percentage(t));
    var timestamp := if session.createdAt.Some? then Formatted(session.createdAt.value) else Unknown;
    session.resultLevel := Some(resultLevel);
    r := Success(AccuracySummary(session.id, SummarySong(session.song.id, session.song.title), session.avgScore,
                                 timestamp, perfect, good, normal, bad, miss, resultLevel));
  }

  // ----- low-score feedback -----

  /** The key of a session's accuracy recording. */
  function UserVideoKey(userId: int, mode: string, sessionId: int): string
  {
    VideoStorageDir + IntToString(userId) + "_ACCURACY_" + mode + "_" + IntToString(sessionId) + ".mp4"
  }

  /** Feedback reads the recording from exactly the key the recording was saved under. */
  lemma UserVideoKeyIsRecordedKey(userId: int, mode: string, sessionId: int)
    ensures RecordedVideoKey(userId, ACCURACY, sessionId, Some(mode)) == Success(UserVideoKey(userId, mode, sessionId))
  {
  }

  /** The reference image of a frame: its index padded to four digits under the song's folder. */
  function ExpertImageUrl(songTitle: string, frameIndex: int): string
  {
    BucketUrl + ExpertFramesDir + songTitle + "/" + FormatZeroPadded(frameIndex, 4) + ".jpg"
  }

  /** The expert URL names its frame: the file name parses back to the index, and is four characters for indices below 10000. */
  lemma ExpertImageUrlNamesFrame(songTitle: string, frameIndex: int)
    ensures var folder := BucketUrl + ExpertFramesDir + songTitle + "/";
      var url := ExpertImageUrl(songTitle, frameIndex);
      && |folder| + 4 <= |url|
      && url[..|folder|] == folder
      && ParseDecimal(url[|folder|..|url| - 4]) == Some(frameIndex)
      && (0 <= frameIndex < 10000 ==> |url| == |folder| + 8)
  {
    var folder := BucketUrl + ExpertFramesDir + songTitle + "/";
    var name := FormatZeroPadded(frameIndex, 4);
    var url := ExpertImageUrl(songTitle, frameIndex);
    assert url == folder + name + ".jpg";
    assert url[|folder|..|url| - 4] == name;
    FormatZeroPaddedRoundTrip(frameIndex, 4);
    FormatZeroPaddedLength(frameIndex, 4);
    if 0 <= frameIndex < 10000 {
      DigitsLength(frameIndex);
    }
  }

  lemma DigitsLength(n: nat)
    requires n < 10000
    ensures |IntToString(n)| <= 4
  {
    if n >= 10 {
      assert DigitsOf(n) == DigitsOf(n / 10) + [DigitChar(n % 10)];
      if n >= 100 {
        assert DigitsOf(n / 10) == DigitsOf(n / 100) + [DigitChar((n / 10) % 10)];
        if n >= 1000 {
          assert DigitsOf(n / 100) == DigitsOf(n / 1000) + [DigitChar((n / 100) % 10)];
        }
      }
    }
  }

  /** Indices of the low-score frames the recording can hold, in query order. */
  function FrameIndicesToExtract(lowScoreFrames: seq<FrameEvaluation>, totalFrames: int): (r: seq<int>)
    ensures forall i :: i in r ==> i < totalFrames
    ensures forall f :: f in lowScoreFrames && f.frameIndex < totalFrames ==> f.frameIndex in r
    ensures forall i :: i in r ==> exists f :: f in lowScoreFrames && f.frameIndex == i
  {
    if |lowScoreFrames| == 0 then []
    else
      var init := FrameIndicesToExtract(lowScoreFrames[..|lowScoreFrames| - 1], totalFrames);
      var last := lowScoreFrames[|lowScoreFrames| - 1];
      assert forall f :: f in lowScoreFrames ==> f in lowScoreFrames[..|lowScoreFrames| - 1] || f == last;
      if last.frameIndex < totalFrames then init + [last.frameIndex] else init
  }

  /** The lines kept from a feedback text: each trimmed, blank ones dropped, order kept. */
  function NonBlankTrimmed(lines: seq<string>): (r: seq<string>)
    ensures |r| <= |lines|
  {
    if |lines| == 0 then []
    else
      var rest := NonBlankTrimmed(lines[..|lines| - 1]);
      var t := Trim(lines[|lines| - 1]);
      if IsBlank(t) then rest else rest + [t]
  }

  /** Keeping lines distributes over concatenation. */
  lemma {:induction false} NonBlankTrimmedAppend(a: seq<string>, b: seq<string>)
    ensures NonBlankTrimmed(a + b) == NonBlankTrimmed(a) + NonBlankTrimmed(b)
    decreases |b|
  {
    if |b| > 0 {
      var b0 := b[..|b| - 1];
      assert (a + b)[..|a + b| - 1] == a + b0;
      NonBlankTrimmedAppend(a, b0);
    } else {
      assert a + b == a;
    }
  }

  /** Lines that are already trimmed and not blank are all kept. */
  lemma {:induction false} NonBlankTrimmedKeepsCleanLines(lines: seq<string>)
    requires forall i :: 0 <= i < |lines| ==> Trim(lines[i]) == lines[i] && !IsBlank(lines[i])
    ensures NonBlankTrimmed(lines) == lines
  {
    if |lines| > 0 {
      NonBlankTrimmedKeepsCleanLines(lines[..|lines| - 1]);
      assert lines[..|lines| - 1] + [lines[|lines| - 1]] == lines;
    }
  }

  function Take(s: seq<string>, n: nat): (r: seq<string>)
    ensures |r| == if |s| < n then |s| else n
  {
    if |s| <= n then s else s[..n]
  }

  /** "1. ", "2. ", … in front of each line. */
  function Numbered(lines: seq<string>): (r: seq<string>)
    ensures |r| == |lines|
  {
    seq(|lines|, i requires 0 <= i < |lines| => IntToString(i + 1) + ". " + lines[i])
  }

  /** The feedback lines shown for a successful answer: the first three kept lines, numbered. */
  function TopFeedbackLines(feedback: string): (r: seq<string>)
    ensures |r| <= 3
  {
    Numbered(Take(NonBlankTrimmed(Split(feedback, '\n')), 3))
  }

  /** An answer written as clean lines shows its first three lines, numbered from 1. */
  lemma TopFeedbackLinesOfCleanText(lines: seq<string>)
    requires |lines| > 0
    requires forall i :: 0 <= i < |lines| ==> '\n' !in lines[i] && Trim(lines[i]) == lines[i] && !IsBlank(lines[i])
    ensures TopFeedbackLines(Join(lines, '\n')) == Numbered(Take(lines, 3))
  {
    SplitJoin(lines, '\n');
    NonBlankTrimmedKeepsCleanLines(lines);
  }

  /** Whatever follows the third kept line does not change what is shown. */
  lemma TopFeedbackLinesIgnoresTail(a: seq<string>, b: seq<string>)
    requires |NonBlankTrimmed(a)| >= 3
    ensures Numbered(Take(NonBlankTrimmed(a + b), 3)) == Numbered(Take(NonBlankTrimmed(a), 3))
  {
    NonBlankTrimmedAppend(a, b);
    TakeOfLongPrefix(NonBlankTrimmed(a), NonBlankTrimmed(b));
  }

  lemma TakeOfLongPrefix(x: seq<string>, y: seq<string>)
    requires |x| >= 3
    ensures Take(x + y, 3) == Take(x, 3)
  {
    assert (x + y)[..3] == x[..3];
  }

  lemma KeptStep(pieces: seq<string>, i: nat)
    requires i < |pieces|
    ensures NonBlankTrimmed(pieces[..i + 1]) ==
      if IsBlank(Trim(pieces[i])) then NonBlankTrimmed(pieces[..i]) else NonBlankTrimmed(pieces[..i]) + [Trim(pieces[i])]
  {
    assert pieces[..i + 1][..i] == pieces[..i];
  }

  lemma NumberedStep(kept: seq<string>, s: string)
    requires |kept| < 3
    ensures Numbered(Take(kept + [s], 3)) == Numbered(Take(kept, 3)) + [IntToString(|kept| + 1) + ". " + s]
  {
    assert Take(kept + [s], 3) == kept + [s];
    assert Take(kept, 3) == kept;
  }

  /** One line through the pipeline while fewer than three lines are shown. */
  lemma FormatStep(pieces: seq<string>, i: nat, top3: seq<string>)
    requires i < |pieces| && |top3| < 3
    requires top3 == Numbered(Take(NonBlankTrimmed(pieces[..i]), 3))
    ensures IsBlank(Trim(pieces[i])) ==> Numbered(Take(NonBlankTrimmed(pieces[..i + 1]), 3)) == top3
    ensures !IsBlank(Trim(pieces[i])) ==>
      Numbered(Take(NonBlankTrimmed(pieces[..i + 1]), 3)) == top3 + [IntToString(|top3| + 1) + ". " + Trim(pieces[i])]
  {
    var kept := NonBlankTrimmed(pieces[..i]);
    KeptStep(pieces, i);
    assert |Take(kept, 3)| == |top3|;
    if !IsBlank(Trim(pieces[i])) {
      NumberedStep(kept, Trim(pieces[i]));
    }
  }

  /**
   * The stream pipeline over the answer's lines, with its `AtomicInteger`
   * counter: trim, drop blanks, stop after three, number from 1.
   */
  method FormatFeedback(feedback: string) returns (top3: seq<string>)
    ensures top3 == TopFeedbackLines(feedback)
  {
    var pieces := Split(feedback, '\n');
    top3 := NumberFirstThree(pieces);
  }

  /** The counter loop over the split lines. */
  method NumberFirstThree(pieces: seq<string>) returns (top3: seq<string>)
    ensures top3 == Numbered(Take(NonBlankTrimmed(pieces), 3))
  {
    var idx := 1;
    top3 := [];
    var i := 0;
    while i < |pieces| && |top3| < 3
      invariant 0 <= i <= |pieces|
      invariant idx == |top3| + 1
      invariant top3 == Numbered(Take(NonBlankTrimmed(pieces[..i]), 3))
    {
      FormatStep(pieces, i, top3);
      var s := Trim(pieces[i]);
      if !IsBlank(s) {
        top3 := top3 + [IntToString(idx) + ". " + s];
        idx := idx + 1;
      }
      i := i + 1;
    }
    FormatExit(pieces, i, top3);
  }

  /** Once three lines are shown, or the lines run out, the rest changes nothing. */
  lemma FormatExit(pieces: seq<string>, i: nat, top3: seq<string>)
    requires i <= |pieces|
    requires top3 == Numbered(Take(NonBlankTrimmed(pieces[..i]), 3))
    requires i == |pieces| || |top3| >= 3
    ensures top3 == Numbered(Take(NonBlankTrimmed(pieces), 3))
  {
    var kept := NonBlankTrimmed(pieces[..i]);
    assert |Take(kept, 3)| == |top3|;
    LoopExit(pieces, i);
  }

  lemma LoopExit(pieces: seq<string>, i: nat)
    requires i <= |pieces|
    requires i == |pieces| || |NonBlankTrimmed(pieces[..i])| >= 3
    ensures Take(NonBlankTrimmed(pieces[..i]), 3) == Take(NonBlankTrimmed(pieces), 3)
  {
    if i < |pieces| {
      NonBlankTrimmedAppend(pieces[..i], pieces[i..]);
      assert pieces[..i] + pieces[i..] == pieces;
      TakeOfLongPrefix(NonBlankTrimmed(pieces[..i]), NonBlankTrimmed(pieces[i..]));
    } else {
      assert pieces[..i] == pieces;
    }
  }

  /** What the vision model did for one frame: answered with a text or failed with a (possibly null) message. */
  datatype OracleOutcome = Answer(text: string) | Fault(message: Option<string>)

  datatype LowScoreFeedback = LowScoreFeedback(
    frameIndex: int,
    feedbacks: seq<string>,
    userImageUrl: Option<string>,
    expertImageUrl: string)

  const SkippedMessage: string := "사용자 이미지 업로드 실패로 피드백 생략됨"

  function FaultLine(message: Option<string>): string
  {
    "GPT feedback failed - " + (match message case Some(m) => m case None => "null")
  }

  /** One frame's result: skipped without an uploaded user image, otherwise the oracle's answer or failure. */
  function FeedbackFor(frame: FrameEvaluation, songTitle: string, userImages: map<int, string>,
                       outcome: OracleOutcome): LowScoreFeedback
  {
    var expert := ExpertImageUrl(songTitle, frame.frameIndex);
    if frame.frameIndex !in userImages then
      LowScoreFeedback(frame.frameIndex, [SkippedMessage], None, expert)
    else
      match outcome
      case Answer(text) =>
        LowScoreFeedback(frame.frameIndex, TopFeedbackLines(text), Some(userImages[frame.frameIndex]), expert)
      case Fault(m) =>
        LowScoreFeedback(frame.frameIndex, [FaultLine(m)], Some(userImages[frame.frameIndex]), expert)
  }

  /** One result per low-score frame, in query order. */
  function FeedbackResults(frames: seq<FrameEvaluation>, songTitle: string, userImages: map<int, string>,
                           oracle: seq<OracleOutcome>): (r: seq<LowScoreFeedback>)
    requires |oracle| == |frames|
    ensures |r| == |frames|
  {
    seq(|frames|, i requires 0 <= i < |frames| => FeedbackFor(frames[i], songTitle, userImages, oracle[i]))
  }

  /** The rows after saving the full answer text into each frame the oracle answered. */
  function SavedRows(rows: map<int, FrameEvaluation>, frames: seq<FrameEvaluation>, userImages: map<int, string>,
                     oracle: seq<OracleOutcome>): map<int, FrameEvaluation>
    requires |oracle| == |frames|
  {
    if |frames| == 0 then rows
    else
      var n := |frames| - 1;
      var before := SavedRows(rows, frames[..n], userImages, oracle[..n]);
      if frames[n].frameIndex in userImages && oracle[n].Answer? then
        before[frames[n].id := frames[n].(gptFeedback := Some(oracle[n].text))]
      else before
  }

  /**
   * With distinct row ids the saves do not interfere, so their order does not
   * matter: an answered frame's row holds the full answer, every other row is
   * untouched.
   */
  lemma {:induction false} SavedRowsContents(rows: map<int, FrameEvaluation>, frames: seq<FrameEvaluation>,
                                             userImages: map<int, string>, oracle: seq<OracleOutcome>)
    requires |oracle| == |frames|
    requires forall i, j :: 0 <= i < j < |frames| ==> frames[i].id != frames[j].id
    ensures forall i :: 0 <= i < |frames| && frames[i].frameIndex in userImages && oracle[i].Answer? ==>
      frames[i].id in SavedRows(rows, frames, userImages, oracle)
      && SavedRows(rows, frames, userImages, oracle)[frames[i].id] == frames[i].(gptFeedback := Some(oracle[i].text))
    ensures forall id :: (forall i :: 0 <= i < |frames| && frames[i].frameIndex in userImages && oracle[i].Answer? ==> frames[i].id != id) ==>
      Lookup(SavedRows(rows, frames, userImages, oracle), id) == Lookup(rows, id)
  {
    if |frames| > 0 {
      var n := |frames| - 1;
      SavedRowsContents(rows, frames[..n], userImages, oracle[..n]);
    }
  }

  function Lookup(rows: map<int, FrameEvaluation>, id: int): Option<FrameEvaluation>
  {
    if id in rows then Some(rows[id]) else None
  }

  /**
   * The outcome of `generateLowScoreFeedback` once the session is found: the
   * frame count and the extraction and upload read `objects`; the oracle is
   * consulted per frame.
   */
  function FeedbackOutcome(objects: map<string, Blob>, failingKeys: set<string>, userId: int, mode: string,
                           songTitle: string, sessionId: int, lowScoreFrames: seq<FrameEvaluation>,
                           oracle: seq<OracleOutcome>): Result<seq<LowScoreFeedback>, ServiceError>
    requires |oracle| == |lowScoreFrames|
  {
    var key := UserVideoKey(userId, mode, sessionId);
    match TotalFrameCount(objects, key)
    case Failure(e) => Failure(FromVideo(e))
    case Success(totalFrames) =>
      var indices := FrameIndicesToExtract(lowScoreFrames, totalFrames);
      if |indices| == 0 then Success([])
      else
        match FramesFromObject(objects, key, indices)
        case None => Failure(FromVideo(ExtractAndUploadFailed))
        case Some(frames) =>
          if !(FrameKeys(userId, sessionId, frames.Keys) !! failingKeys) then Failure(FromVideo(ExtractAndUploadFailed))
          else Success(FeedbackResults(lowScoreFrames, songTitle, FrameUrls(userId, sessionId, frames.Keys), oracle))
  }

  /** Whether the run reaches the oracle stage (and so the completion write). */
  predicate ReachesOracle(objects: map<string, Blob>, failingKeys: set<string>, userId: int, mode: string,
                          sessionId: int, lowScoreFrames: seq<FrameEvaluation>)
  {
    var key := UserVideoKey(userId, mode, sessionId);
    var count := TotalFrameCount(objects, key);
    && count.Success?
    && |FrameIndicesToExtract(lowScoreFrames, count.value)| > 0
    && var frames := FramesFromObject(objects, key, FrameIndicesToExtract(lowScoreFrames, count.value));
    && frames.Some?
    && FrameKeys(userId, sessionId, frames.value.Keys) !! failingKeys
  }

  /** The frames the upload stage extracts from the recording; None when the count fails, no index survives or extraction throws. */
  function ExtractedUserFrames(objects: map<string, Blob>, userId: int, mode: string, sessionId: int,
                               lowScoreFrames: seq<FrameEvaluation>): Option<map<int, Image>>
  {
    var key := UserVideoKey(userId, mode, sessionId);
    match TotalFrameCount(objects, key)
    case Failure(_) => None
    case Success(totalFrames) =>
      var indices := FrameIndicesToExtract(lowScoreFrames, totalFrames);
      if |indices| == 0 then None else FramesFromObject(objects, key, indices)
  }

  /** The oracle stage is reached exactly when frames were extracted and none of their uploads fails. */
  lemma ReachesOracleIffUploaded(objects: map<string, Blob>, failingKeys: set<string>, userId: int, mode: string,
                                 sessionId: int, lowScoreFrames: seq<FrameEvaluation>)
    ensures var frames := ExtractedUserFrames(objects, userId, mode, sessionId, lowScoreFrames);
      ReachesOracle(objects, failingKeys, userId, mode, sessionId, lowScoreFrames) <==>
        frames.Some? && FrameKeys(userId, sessionId, frames.value.Keys) !! failingKeys
  {
  }

  /** The user images the oracle stage sees. */
  function UploadedImages(objects: map<string, Blob>, userId: int, mode: string, sessionId: int,
                          lowScoreFrames: seq<FrameEvaluation>): map<int, string>
  {
    var key := UserVideoKey(userId, mode, sessionId);
    match TotalFrameCount(objects, key)
    case Failure(_) => map[]
    case Success(totalFrames) =>
      match FramesFromObject(objects, key, FrameIndicesToExtract(lowScoreFrames, totalFrames))
      case None => map[]
      case Some(frames) => FrameUrls(userId, sessionId, frames.Keys)
  }

  lemma {:induction false} NoIndicesToExtract(lowScoreFrames: seq<FrameEvaluation>, totalFrames: int)
    requires forall f :: f in lowScoreFrames ==> f.frameIndex >= totalFrames
    ensures FrameIndicesToExtract(lowScoreFrames, totalFrames) == []
  {
    if |lowScoreFrames| > 0 {
      var init := lowScoreFrames[..|lowScoreFrames| - 1];
      assert forall f :: f in init ==> f in lowScoreFrames;
      NoIndicesToExtract(init, totalFrames);
    }
  }

  /** When no low-score frame fits in the recording the result is empty and nothing further happens. */
  lemma NoValidFrameGivesEmptyList(objects: map<string, Blob>, failingKeys: set<string>, userId: int, mode: string,
                                   songTitle: string, sessionId: int, lowScoreFrames: seq<FrameEvaluation>,
                                   oracle: seq<OracleOutcome>)
    requires |oracle| == |lowScoreFrames|
    requires TotalFrameCount(objects, UserVideoKey(userId, mode, sessionId)).Success?
    requires forall f :: f in lowScoreFrames ==>
      f.frameIndex >= TotalFrameCount(objects, UserVideoKey(userId, mode, sessionId)).value
    ensures FeedbackOutcome(objects, failingKeys, userId, mode, songTitle, sessionId, lowScoreFrames, oracle) == Success([])
    ensures !ReachesOracle(objects, failingKeys, userId, mode, sessionId, lowScoreFrames)
  {
    NoIndicesToExtract(lowScoreFrames, TotalFrameCount(objects, UserVideoKey(userId, mode, sessionId)).value);
  }

  /**
   * A successful run answers each low-score frame in query order, with its
   * expert image; a frame left out by the frame-count filter, or one the
   * decoder never reached, is skipped with no user image.
   */
  lemma FeedbackResultShape(objects: map<string, Blob>, failingKeys: set<string>, userId: int, mode: string,
                            songTitle: string, sessionId: int, lowScoreFrames: seq<FrameEvaluation>,
                            oracle: seq<OracleOutcome>, i: nat)
    requires |oracle| == |lowScoreFrames| && i < |lowScoreFrames|
    requires ReachesOracle(objects, failingKeys, userId, mode, sessionId, lowScoreFrames)
    ensures var r := FeedbackOutcome(objects, failingKeys, userId, mode, songTitle, sessionId, lowScoreFrames, oracle);
      var total := TotalFrameCount(objects, UserVideoKey(userId, mode, sessionId)).value;
      && r.Success? && |r.value| == |lowScoreFrames|
      && r.value[i].frameIndex == lowScoreFrames[i].frameIndex
      && r.value[i].expertImageUrl == ExpertImageUrl(songTitle, lowScoreFrames[i].frameIndex)
      && (lowScoreFrames[i].frameIndex >= total || lowScoreFrames[i].frameIndex < 0 ==>
            r.value[i].feedbacks == [SkippedMessage] && r.value[i].userImageUrl == None)
  {
    var key := UserVideoKey(userId, mode, sessionId);
    var total := TotalFrameCount(objects, key).value;
    var indices := FrameIndicesToExtract(lowScoreFrames, total);
    var v := AsVideo(objects[key]);
    var frames := FramesFromObject(objects, key, indices).value;
    assert frames == KeptFrames(v, RotationOf(v).value, indices);
    var idx := lowScoreFrames[i].frameIndex;
    if idx >= total || idx < 0 {
      assert idx !in frames.Keys;
    }
  }

  /** A successful answer shows at most three numbered lines; a failed one shows the single failure line, and other frames are unaffected. */
  lemma AnsweredAndFailedFrames(frames: seq<FrameEvaluation>, songTitle: string, userImages: map<int, string>,
                                oracle: seq<OracleOutcome>, i: nat, j: nat, other: OracleOutcome)
    requires |oracle| == |frames| && i < |frames| && j < |frames| && i != j
    requires frames[i].frameIndex in userImages
    ensures var r := FeedbackResults(frames, songTitle, userImages, oracle);
      && (oracle[i].Answer? ==>
            r[i].feedbacks == TopFeedbackLines(oracle[i].text) && |r[i].feedbacks| <= 3
            && r[i].userImageUrl == Some(userImages[frames[i].frameIndex]))
      && (oracle[i].Fault? ==> r[i].feedbacks == [FaultLine(oracle[i].message)])
    ensures FeedbackResults(frames, songTitle, userImages, oracle[j := other])[i]
         == FeedbackResults(frames, songTitle, userImages, oracle)[i]
  {
  }

  lemma SavedRowsStep(rows: map<int, FrameEvaluation>, frames: seq<FrameEvaluation>, userImages: map<int, string>,
                      oracle: seq<OracleOutcome>, i: nat)
    requires |oracle| == |frames| && i < |frames|
    ensures var before := SavedRows(rows, frames[..i], userImages, oracle[..i]);
      SavedRows(rows, frames[..i + 1], userImages, oracle[..i + 1]) ==
        if frames[i].frameIndex in userImages && oracle[i].Answer? then
          before[frames[i].id := frames[i].(gptFeedback := Some(oracle[i].text))]
        else before
  {
    assert frames[..i + 1][..i] == frames[..i];
    assert oracle[..i + 1][..i] == oracle[..i];
  }

  lemma FeedbackResultsStep(frames: seq<FrameEvaluation>, songTitle: string, userImages: map<int, string>,
                            oracle: seq<OracleOutcome>, i: nat)
    requires |oracle| == |frames| && i < |frames|
    ensures FeedbackResults(frames[..i + 1], songTitle, userImages, oracle[..i + 1])
         == FeedbackResults(frames[..i], songTitle, userImages, oracle[..i]) + [FeedbackFor(frames[i], songTitle, userImages, oracle[i])]
  {
    var f1, o1 := frames[..i + 1], oracle[..i + 1];
    var f0, o0 := frames[..i], oracle[..i];
    assert f1 == f0 + [frames[i]] && o1 == o0 + [oracle[i]];
    AppendFeedback(f0, o0, frames[i], oracle[i], songTitle, userImages);
  }

  /** One more frame adds its feedback at the end of the list. */
  lemma AppendFeedback(f0: seq<FrameEvaluation>, o0: seq<OracleOutcome>, frame: FrameEvaluation, outcome: OracleOutcome,
                       songTitle: string, userImages: map<int, string>)
    requires |o0| == |f0|
    ensures FeedbackResults(f0 + [frame], songTitle, userImages, o0 + [outcome])
         == FeedbackResults(f0, songTitle, userImages, o0) + [FeedbackFor(frame, songTitle, userImages, outcome)]
  {
    var a := FeedbackResults(f0 + [frame], songTitle, userImages, o0 + [outcome]);
    var b := FeedbackResults(f0, songTitle, userImages, o0) + [FeedbackFor(frame, songTitle, userImages, outcome)];
    assert |a| == |b|;
    forall j | 0 <= j < |a|
      ensures a[j] == b[j]
    {
      if j < |f0| {
        assert (f0 + [frame])[j] == f0[j] && (o0 + [outcome])[j] == o0[j];
      }
    }
  }

  /** One frame of the oracle stage: the answer's full text is saved into the frame's row before its lines are formatted. */
  method FeedbackForFrame(repo: FrameEvaluationRepository, frame: FrameEvaluation, songTitle: string,
                          userImages: map<int, string>, outcome: OracleOutcome)
    returns (one: LowScoreFeedback)
    modifies repo
    ensures one == FeedbackFor(frame, songTitle, userImages, outcome)
    ensures repo.rows == if frame.frameIndex in userImages && outcome.Answer? then
      old(repo.rows)[frame.id := frame.(gptFeedback := Some(outcome.text))] else old(repo.rows)
  {
    var frameIndex := frame.frameIndex;
    var expertImagePath := ExpertImageUrl(songTitle, frameIndex);
    if frameIndex !in userImages {
      return LowScoreFeedback(frameIndex, [SkippedMessage], None, expertImagePath);
    }
    var userImagePath := userImages[frameIndex];
    match outcome
    case Answer(feedback) =>
      repo.Save(frame.(gptFeedback := Some(feedback)));
      var top3 := FormatFeedback(feedback);
      one := LowScoreFeedback(frameIndex, top3, Some(userImagePath), expertImagePath);
    case Fault(m) =>
      one := LowScoreFeedback(frameIndex, [FaultLine(m)], Some(userImagePath), expertImagePath);
  }

  /** The oracle stage: one result per frame, each answered frame's text saved, then the completion flag. */
  method CollectFeedback(session: AccuracySession, repo: FrameEvaluationRepository, lowScoreFrames: seq<FrameEvaluation>,
                         songTitle: string, userImages: map<int, string>, oracle: seq<OracleOutcome>)
    returns (results: seq<LowScoreFeedback>)
    requires |oracle| == |lowScoreFrames|
    modifies session`feedbackCompleted, repo
    ensures results == FeedbackResults(lowScoreFrames, songTitle, userImages, oracle)
    ensures repo.rows == SavedRows(old(repo.rows), lowScoreFrames, userImages, oracle)
    ensures session.feedbackCompleted
  {
    results := [];
    var i := 0;
    while i < |lowScoreFrames|
      invariant 0 <= i <= |lowScoreFrames|
      invariant results == FeedbackResults(lowScoreFrames[..i], songTitle, userImages, oracle[..i])
      invariant repo.rows == SavedRows(old(repo.rows), lowScoreFrames[..i], userImages, oracle[..i])
    {
      FeedbackResultsStep(lowScoreFrames, songTitle, userImages, oracle, i);
      SavedRowsStep(old(repo.rows), lowScoreFrames, userImages, oracle, i);
      var one := FeedbackForFrame(repo, lowScoreFrames[i], songTitle, userImages, oracle[i]);
      results := results + [one];
      i := i + 1;
    }
    assert lowScoreFrames[..i] == lowScoreFrames;
    assert oracle[..i] == oracle;
    session.feedbackCompleted := true;
  }

  /**
   * `generateLowScoreFeedback`: `session` is the lookup by `sessionId`,
   * `lowScoreFrames` the five lowest-scoring evaluations as the query returns
   * them, and `oracle` what the vision model does for each of them.
   */
  method GenerateLowScoreFeedback(session: AccuracySession?, sessionId: int, store: BlobStore,
                                  repo: FrameEvaluationRepository, lowScoreFrames: seq<FrameEvaluation>,
                                  oracle: seq<OracleOutcome>)
    returns (r: Result<seq<LowScoreFeedback>, ServiceError>)
    requires |oracle| == |lowScoreFrames|
    modifies (if session == null then {} else {session})`feedbackCompleted, store`objects, repo
    ensures session == null ==>
      r == Failure(SessionNotFound("Session not found: " + IntToString(sessionId)))
      && store.objects == old(store.objects) && repo.rows == old(repo.rows)
    ensures session != null ==>
      r == FeedbackOutcome(old(store.objects), store.failingKeys, session.user.id, session.mode, session.song.title,
                           sessionId, lowScoreFrames, oracle)
    ensures session != null ==>
      if ReachesOracle(old(store.objects), store.failingKeys, session.user.id, session.mode, sessionId, lowScoreFrames)
      then
        && session.feedbackCompleted
        && repo.rows == SavedRows(old(repo.rows), lowScoreFrames,
                                  UploadedImages(old(store.objects), session.user.id, session.mode, sessionId, lowScoreFrames),
                                  oracle)
      else
        session.feedbackCompleted == old(session.feedbackCompleted) && repo.rows == old(repo.rows)
    ensures session != null ==>
      var userId := session.user.id;
      var frames := ExtractedUserFrames(old(store.objects), userId, session.mode, sessionId, lowScoreFrames);
      && (frames.None? ==> store.objects == old(store.objects))
      && (frames.Some? ==>
            && SameOutside(old(store.objects), store.objects, userId, sessionId, frames.value.Keys)
            && (forall k :: k in frames.value ==>
                  Storage.Lookup(store.objects, UserFrameKey(userId, sessionId, k))
                  in {Storage.Lookup(old(store.objects), UserFrameKey(userId, sessionId, k)), Some(JpegFile(frames.value[k]))})
            && (ReachesOracle(old(store.objects), store.failingKeys, userId, session.mode, sessionId, lowScoreFrames) ==>
                  forall k :: k in frames.value ==>
                    Storage.Lookup(store.objects, UserFrameKey(userId, sessionId, k)) == Some(JpegFile(frames.value[k]))))
  {
    if session == null {
      return Failure(SessionNotFound("Session not found: " + IntToString(sessionId)));
    }
    var songTitle := session.song.title;
    var userId := session.user.id;
    var mode := session.mode;
    var userVideoKey := UserVideoKey(userId, mode, sessionId);
    var count := GetTotalFrameCount(store, userVideoKey);
    if count.Failure? {
      return Failure(FromVideo(count.error));
    }
    var totalFrames := count.value;
    var frameIndices := FrameIndicesToExtract(lowScoreFrames, totalFrames);
    if |frameIndices| == 0 {
      return Success([]);
    }
    var userImageMap := ExtractAndUploadMultipleFrames(store, userVideoKey, frameIndices, sessionId, mode, userId);
    if userImageMap.Failure? {
      return Failure(FromVideo(userImageMap.error));
    }
    var results := CollectFeedback(session, repo, lowScoreFrames, songTitle, userImageMap.value, oracle);
    r := Success(results);
  }
}
