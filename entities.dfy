/**
 * The persisted records the services read and write: users, songs, accuracy
 * sessions (updated in place by the services) and per-frame evaluations, and
 * `LocalDateTime` arithmetic as far as the services use it.
 */
module Entities {
  import opened Wrappers

  datatype AppUser = AppUser(id: int, username: string)

  /** Section boundaries are whole seconds from the start of the song. */
  datatype Song = Song(
    id: int,
    title: string,
    fullStartTime: int,
    fullEndTime: int,
    highlightStartTime: int,
    highlightEndTime: int)

  type Nanos = n: nat | n < 1_000_000_000

  /** A `LocalDateTime`: whole seconds since 1970-01-01T00:00 and a nanosecond part. */
  datatype DateTime = DateTime(epochSecond: int, nano: Nanos)

  /** `LocalDateTime.of(1970, 1, 1, 0, 0)`. */
  const Epoch: DateTime := DateTime(0, 0)

  function PlusSeconds(t: DateTime, seconds: int): DateTime
  {
    DateTime(t.epochSecond + seconds, t.nano)
  }

  function TotalNanos(t: DateTime): int
  {
    t.epochSecond * 1_000_000_000 + t.nano
  }

  /** `Duration.between(start, end).toSeconds()`: whole seconds, rounded toward negative infinity. */
  function DurationSeconds(start: DateTime, end: DateTime): (d: int)
    ensures d * 1_000_000_000 <= TotalNanos(end) - TotalNanos(start) < (d + 1) * 1_000_000_000
  {
    (TotalNanos(end) - TotalNanos(start)) / 1_000_000_000
  }

  /** An accuracy session row; the services change `feedbackCompleted` and `resultLevel` in place. */
  class AccuracySession {
    const id: int
    var user: AppUser
    var song: Song
    var mode: string
    var avgScore: real
    var startTime: Option<DateTime>
    var endTime: Option<DateTime>
    var feedbackCompleted: bool
    var resultLevel: Option<string>
    var createdAt: Option<DateTime>

    constructor (id: int, user: AppUser, song: Song, mode: string, avgScore: real,
                 startTime: Option<DateTime>, endTime: Option<DateTime>, createdAt: Option<DateTime>)
      ensures this.id == id && this.user == user && this.song == song && this.mode == mode
      ensures this.avgScore == avgScore && this.startTime == startTime && this.endTime == endTime
      ensures this.createdAt == createdAt
      ensures !feedbackCompleted && resultLevel == None
    {
      this.id := id;
      this.user := user;
      this.song := song;
      this.mode := mode;
      this.avgScore := avgScore;
      this.startTime := startTime;
      this.endTime := endTime;
      this.createdAt := createdAt;
      feedbackCompleted := false;
      resultLevel := None;
    }
  }

  /** One analysed frame of a session, as the pose scorer's reply was stored. */
  datatype FrameEvaluation = FrameEvaluation(
    id: int,
    sessionId: int,
    frameIndex: int,
    score: real,
    resultTag: Option<string>,
    gptFeedback: Option<string>)

  /** The frame evaluation table, keyed by row id. */
  class FrameEvaluationRepository {
    var rows: map<int, FrameEvaluation>

    constructor (rows: map<int, FrameEvaluation>)
      ensures this.rows == rows
    {
      this.rows := rows;
    }

    /** `save`: inserts the row or overwrites the row with the same id. */
    method Save(f: FrameEvaluation)
      modifies this
      ensures rows == old(rows)[f.id := f]
    {
      rows := rows[f.id := f];
    }
  }
}
