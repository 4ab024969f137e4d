/**
 * How the two servers' conventions meet: the pose scorer's replies as the
 * accuracy service reads them, and the response of a newly created session.
 */
module EndToEnd {
  import opened Wrappers
  import opened Entities
  import opened AccuracySessionService
  import opened SessionResponse
  import opened PoseEvalServer

  /** The HTTP reply the scorer's Flask app sends for a reply value; an uncaught exception has no JSON body. */
  function ToFlaskReply(reply: PoseReply): (f: FlaskReply)
    ensures reply.Scored? ==> f.status == 200 && f.body.Some?
    ensures reply.Failed? ==> f.status == reply.status && (f.body.Some? <==> reply.error.Some?)
  {
    match reply
    case Scored(score, feedback, frameIndex) =>
      FlaskReply(200, Some(map["score" := JNumber(score), "feedback" := JString(feedback), "frame_index" := JNumber(frameIndex as real)]))
    case Failed(status, error) =>
      FlaskReply(status, if error.Some? then Some(map["error" := JString(error.value)]) else None)
    case Closed(collected) =>
      FlaskReply(200, Some(map["status" := JString("closed"), "objects_collected" := JNumber(collected as real)]))
  }

  /** The accuracy tier a score falls in, by the scorer's thresholds. */
  function TierOfScore(score: real): Tier
  {
    if score >= 90.0 then Perfect
    else if score >= 80.0 then Good
    else if score >= 75.0 then Normal
    else if score >= 60.0 then Bad
    else Miss
  }

  /**
   * A scored reply is stored with the scorer's score, and its tag is counted
   * in the tier its score falls in; the tag of a frame without a pose counts
   * as a miss.
   */
  lemma ScoredFrameIsCountedByScore(reply: PoseReply, sessionId: int, frameIndex: int, newId: int)
    requires reply.Scored?
    requires reply.feedback == ScoreTag(reply.score) || reply == Scored(0.0, "WORST", reply.frameIndex)
    ensures var r := EvaluationFromReply(ToFlaskReply(reply), sessionId, frameIndex, newId);
      && r.Success? && r.value.score == reply.score
      && TierOf(r.value.resultTag) == TierOfScore(reply.score)
  {
    TierOfScorerTags();
    var f := ToFlaskReply(reply);
    assert f.body.value["score"] == JNumber(reply.score);
    assert f.body.value["feedback"] == JString(reply.feedback);
  }

  /** Every scorer error reaches the accuracy service as an HTTP error with the scorer's status. */
  lemma ErrorRepliesAreRefused(reply: PoseReply, sessionId: int, frameIndex: int, newId: int)
    requires reply.Failed? && 400 <= reply.status < 600
    ensures EvaluationFromReply(ToFlaskReply(reply), sessionId, frameIndex, newId) == Failure(FlaskHttpError(reply.status))
  {
  }

  /** A session whose start and end are one instant, as a new session is, reports "00:00:00". */
  lemma NewSessionReportsZeroDuration(session: AccuracySession, now: DateTime)
    requires session.startTime == Some(now) && session.endTime == Some(now)
    ensures FromEntity(session).duration == Some("00:00:00")
  {
    ZeroLengthSession(now);
  }
}
