/**
 * The pose scorer: the `/analyze` endpoint that scores one uploaded frame
 * against the reference choreography, and the `/save` endpoint that drops
 * every session's history. The server's module-level dictionaries become the
 * fields of one `PoseServer` object. The pose comparisons are opaque
 * functions passed in; a comparison that raises is a `None` result.
 */
module PoseEvalServer {
  import opened Wrappers
  import opened Strings

  /** A normalised set of body keypoints; the coordinates are never inspected here. */
  datatype Pose = Pose(keypoints: seq<real>)

  /** What decoding the uploaded bytes and running the landmark detector on them gives. */
  datatype Detection = Undecodable | NoPose | Detected(pose: Pose)

  /**
   * A reference file on disk: a JSON object whose keys are frame numbers as
   * text and whose values are poses or JSON null, a file that is not JSON, or
   * JSON that is not an object (its `items()` raises).
   */
  datatype RefFile = NotJson | Entries(entries: seq<(string, Option<Pose>)>) | NotAnObject

  /** The outcome of a reference lookup; `Crashed` is an exception that escapes the endpoint. */
  datatype RefLookup = Found(pose: Pose) | Absent | Crashed

  datatype Upload = Upload(filename: string, bytes: seq<bv8>)

  /** The form fields of one `/analyze` request; None is a field that was not sent. */
  datatype Request = Request(image: Option<Upload>, songTitle: Option<string>, sessionId: Option<string>, frameIndex: Option<string>)

  /**
   * A reply: a score, a JSON error with its status, an uncaught exception
   * (status 500, no JSON body), or the `/save` acknowledgement.
   */
  datatype PoseReply =
    | Scored(score: real, feedback: string, frameIndex: int)
    | Failed(status: int, error: Option<string>)
    | Closed(objectsCollected: int)

  /** The path of a song's reference poses. */
  function RefPosePath(songTitle: string): (p: string)
    ensures |p| == 12 + |songTitle| + |RefPoseSuffix| && p[..12] == "./ref_poses/"
  {
    "./ref_poses/" + songTitle + RefPoseSuffix
  }

  const RefPoseSuffix: string := "_ref_pose_filtered_1sec_normalized.json"

  /** Distinct songs read distinct files. */
  lemma RefPosePathInjective(a: string, b: string)
    requires RefPosePath(a) == RefPosePath(b)
    ensures a == b
  {
    var pa, pb := RefPosePath(a), RefPosePath(b);
    assert |a| == |b|;
    assert a == pa[12..12 + |a|];
    assert b == pb[12..12 + |b|];
  }

  /**
   * The dictionary comprehension that turns the file's text keys into
   * integers: later entries win on a repeated number, and None when some key
   * is not an integer (`int()` raises).
   */
  function ConvertFrameKeys(entries: seq<(string, Option<Pose>)>): Option<map<int, Option<Pose>>>
  {
    if |entries| == 0 then Some(map[])
    else
      var last := entries[|entries| - 1];
      match ConvertFrameKeys(entries[..|entries| - 1])
      case None => None
      case Some(m) =>
        match PythonInt(last.0)
        case None => None
        case Some(k) => Some(m[k := last.1])
  }

  /** The conversion succeeds exactly when every key is an integer's text. */
  lemma {:induction false} ConvertFrameKeysSucceeds(entries: seq<(string, Option<Pose>)>)
    ensures ConvertFrameKeys(entries).Some? <==> forall i :: 0 <= i < |entries| ==> PythonInt(entries[i].0).Some?
  {
    if |entries| > 0 {
      var init := entries[..|entries| - 1];
      ConvertFrameKeysSucceeds(init);
      assert forall i :: 0 <= i < |init| ==> init[i] == entries[i];
    }
  }

  /**
   * After a successful conversion, a frame number is present exactly when
   * some key denotes it, and it holds the value of the last such key.
   */
  lemma {:induction false} ConvertFrameKeysLastWins(entries: seq<(string, Option<Pose>)>, i: int)
    requires ConvertFrameKeys(entries).Some?
    requires 0 <= i < |entries|
    requires forall j :: i < j < |entries| ==> PythonInt(entries[j].0) != PythonInt(entries[i].0)
    ensures PythonInt(entries[i].0).Some?
    ensures PythonInt(entries[i].0).value in ConvertFrameKeys(entries).value
    ensures ConvertFrameKeys(entries).value[PythonInt(entries[i].0).value] == entries[i].1
  {
    var n := |entries|;
    var init := entries[..n - 1];
    if i < n - 1 {
      assert forall j :: i < j < |init| ==> init[j] == entries[j];
      assert init[i] == entries[i];
      ConvertFrameKeysLastWins(init, i);
    }
  }

  /** Every number in the converted map comes from some key. */
  lemma {:induction false} ConvertFrameKeysOnlyFromKeys(entries: seq<(string, Option<Pose>)>, k: int)
    requires ConvertFrameKeys(entries).Some?
    requires k in ConvertFrameKeys(entries).value
    ensures exists i :: 0 <= i < |entries| && PythonInt(entries[i].0) == Some(k)
  {
    var n := |entries|;
    var init := entries[..n - 1];
    if PythonInt(entries[n - 1].0) != Some(k) {
      ConvertFrameKeysOnlyFromKeys(init, k);
      var i :| 0 <= i < |init| && PythonInt(init[i].0) == Some(k);
      assert init[i] == entries[i];
    }
  }

  /** The reference lookup against the cache and the files on disk. */
  function RefPose(cache: map<string, map<int, Option<Pose>>>, files: map<string, RefFile>, songTitle: string, frameIndex: int): RefLookup
  {
    if songTitle in cache then PoseAt(cache[songTitle], frameIndex)
    else if RefPosePath(songTitle) !in files then Absent
    else match files[RefPosePath(songTitle)]
      case NotJson => Absent
      case NotAnObject => Crashed
      case Entries(entries) =>
        match ConvertFrameKeys(entries)
        case None => Crashed
        case Some(poses) => PoseAt(poses, frameIndex)
  }

  /** `dict.get`: a missing frame and a JSON null both read as no pose. */
  function PoseAt(poses: map<int, Option<Pose>>, frameIndex: int): RefLookup
  {
    if frameIndex in poses && poses[frameIndex].Some? then Found(poses[frameIndex].value) else Absent
  }

  /** The cache after a lookup: the song's converted file is added only when it loads. */
  function CacheAfter(cache: map<string, map<int, Option<Pose>>>, files: map<string, RefFile>, songTitle: string): map<string, map<int, Option<Pose>>>
  {
    if songTitle in cache || RefPosePath(songTitle) !in files then cache
    else match files[RefPosePath(songTitle)]
      case Entries(entries) =>
        if ConvertFrameKeys(entries).Some? then cache[songTitle := ConvertFrameKeys(entries).value] else cache
      case _ => cache
  }

  /** A cached song is never reread: the files play no part and the cache stays as it is. */
  lemma CachedSongIgnoresFiles(cache: map<string, map<int, Option<Pose>>>, files: map<string, RefFile>, other: map<string, RefFile>, songTitle: string, frameIndex: int)
    requires songTitle in cache
    ensures CacheAfter(cache, files, songTitle) == cache
    ensures RefPose(cache, files, songTitle, frameIndex) == RefPose(cache, other, songTitle, frameIndex)
  {
  }

  /** A lookup adds at most its own song to the cache and leaves every other entry alone. */
  lemma CacheOnlyGains(cache: map<string, map<int, Option<Pose>>>, files: map<string, RefFile>, songTitle: string)
    ensures cache.Keys <= CacheAfter(cache, files, songTitle).Keys <= cache.Keys + {songTitle}
    ensures forall t :: t in cache ==> CacheAfter(cache, files, songTitle)[t] == cache[t]
  {
  }

  /** A missing, undecodable or malformed file caches nothing; the first two give no pose, the last raises. */
  lemma LoadFailureCachesNothing(cache: map<string, map<int, Option<Pose>>>, files: map<string, RefFile>, songTitle: string, frameIndex: int)
    requires songTitle !in cache
    requires RefPosePath(songTitle) !in files || !files[RefPosePath(songTitle)].Entries?
             || ConvertFrameKeys(files[RefPosePath(songTitle)].entries).None?
    ensures CacheAfter(cache, files, songTitle) == cache
    ensures RefPose(cache, files, songTitle, frameIndex) in {Absent, Crashed}
    ensures RefPosePath(songTitle) !in files ==> RefPose(cache, files, songTitle, frameIndex) == Absent
  {
  }

  /** Once loaded, later lookups of the same song read the cached map. */
  lemma LoadThenHit(cache: map<string, map<int, Option<Pose>>>, files: map<string, RefFile>, later: map<string, RefFile>, songTitle: string, frameIndex: int)
    requires songTitle in CacheAfter(cache, files, songTitle)
    ensures RefPose(CacheAfter(cache, files, songTitle), later, songTitle, frameIndex) == RefPose(cache, files, songTitle, frameIndex)
  {
  }

  /** The tag for a score: 90, 80, 75 and 60 are the lower bounds of Perfect, Good, Normal and Bad. */
  function ScoreTag(score: real): (tag: string)
    ensures tag == "Perfect" <==> score >= 90.0
    ensures tag == "Good" <==> 80.0 <= score < 90.0
    ensures tag == "Normal" <==> 75.0 <= score < 80.0
    ensures tag == "Bad" <==> 60.0 <= score < 75.0
    ensures tag == "Worst" <==> score < 60.0
  {
    if score >= 90.0 then "Perfect"
    else if score >= 80.0 then "Good"
    else if score >= 75.0 then "Normal"
    else if score >= 60.0 then "Bad"
    else "Worst"
  }

  /** The position of a tag from worst (0) to best (4). */
  function TagRank(tag: string): nat
  {
    if tag == "Perfect" then 4 else if tag == "Good" then 3 else if tag == "Normal" then 2 else if tag == "Bad" then 1 else 0
  }

  /** A higher score never earns a worse tag. */
  lemma ScoreTagMonotone(s: real, t: real)
    requires s <= t
    ensures TagRank(ScoreTag(s)) <= TagRank(ScoreTag(t))
  {
  }

  /** `deque(maxlen=2).append`: the new pose goes last and the oldest drops out once there are three. */
  function DequeAppend(q: seq<Pose>, x: Pose): (r: seq<Pose>)
  {
    var s := q + [x];
    if |s| > 2 then s[|s| - 2..] else s
  }

  /** The deque holds at most two poses, the newest last, the one appended before it just ahead. */
  lemma DequeAppendKeepsNewest(q: seq<Pose>, x: Pose)
    ensures var r := DequeAppend(q, x);
      && |r| == (if |q| + 1 < 2 then |q| + 1 else 2)
      && r[|r| - 1] == x
      && (|q| >= 1 ==> r[0] == q[|q| - 1] && |r| == 2)
  {
  }

  /** Two appends leave exactly the two appended poses, older first, whatever was there. */
  lemma DequeHoldsTwoMostRecent(q: seq<Pose>, a: Pose, b: Pose)
    ensures DequeAppend(DequeAppend(q, a), b) == [a, b]
  {
    DequeAppendKeepsNewest(q, a);
    var r := DequeAppend(q, a);
    DequeAppendKeepsNewest(r, b);
    var r2 := DequeAppend(r, b);
    assert r2[0] == a && r2[1] == b;
  }

  type Queues = map<Option<string>, seq<Pose>>

  /** A session's queue after the pose is appended, created empty on the session's first use. */
  function Enqueue(queues: Queues, sessionId: Option<string>, x: Pose): Queues
  {
    queues[sessionId := DequeAppend(if sessionId in queues then queues[sessionId] else [], x)]
  }

  /** Double-frame scoring when both queues hold two poses (older as prev, newer as now), single-frame scoring otherwise. */
  function Compare(userQueue: seq<Pose>, refQueue: seq<Pose>, user: Pose, expert: Pose,
                   single: (Pose, Pose) -> Option<real>, double: (Pose, Pose, Pose, Pose) -> Option<real>): Option<real>
  {
    if |userQueue| == 2 && |refQueue| == 2 then double(userQueue[1], userQueue[0], refQueue[1], refQueue[0])
    else single(user, expert)
  }

  /** Both queue tables name the same sessions, and each session's two queues have one length, at most two. */
  predicate QueuesAgree(users: Queues, refs: Queues)
  {
    && users.Keys == refs.Keys
    && forall s :: s in users ==> |users[s]| <= 2 && |refs[s]| == |users[s]|
  }

  /** Appending to a session's two queues together keeps the tables in agreement. */
  lemma EnqueueInLockstep(users: Queues, refs: Queues, sessionId: Option<string>, user: Pose, expert: Pose)
    requires QueuesAgree(users, refs)
    ensures QueuesAgree(Enqueue(users, sessionId, user), Enqueue(refs, sessionId, expert))
  {
    DequeAppendKeepsNewest(if sessionId in users then users[sessionId] else [], user);
    DequeAppendKeepsNewest(if sessionId in refs then refs[sessionId] else [], expert);
  }

  /** A session's first scored frame is compared on its own. */
  lemma FirstFrameScoresSingle(users: Queues, refs: Queues, sessionId: Option<string>, user: Pose, expert: Pose,
                               single: (Pose, Pose) -> Option<real>, double: (Pose, Pose, Pose, Pose) -> Option<real>)
    requires sessionId !in users && sessionId !in refs
    ensures Compare(Enqueue(users, sessionId, user)[sessionId], Enqueue(refs, sessionId, expert)[sessionId], user, expert, single, double)
         == single(user, expert)
  {
  }

  /** Every later frame is compared together with the session's previous frame. */
  lemma LaterFrameScoresDouble(users: Queues, refs: Queues, sessionId: Option<string>, user: Pose, expert: Pose,
                               single: (Pose, Pose) -> Option<real>, double: (Pose, Pose, Pose, Pose) -> Option<real>)
    requires sessionId in users && sessionId in refs && |users[sessionId]| >= 1 && |refs[sessionId]| >= 1
    ensures var u, e := users[sessionId], refs[sessionId];
      Compare(Enqueue(users, sessionId, user)[sessionId], Enqueue(refs, sessionId, expert)[sessionId], user, expert, single, double)
         == double(user, u[|u| - 1], expert, e[|e| - 1])
  {
    DequeAppendKeepsNewest(users[sessionId], user);
    DequeAppendKeepsNewest(refs[sessionId], expert);
  }

  /** The form's frame number: 0 when absent, None when `int()` raises on it. */
  function FrameIndexOf(req: Request): Option<int>
  {
    if req.frameIndex.None? then Some(0) else PythonInt(req.frameIndex.value)
  }

  /** An upload without a file name is falsy, as is an absent or empty song title. */
  predicate MissingParameters(req: Request)
  {
    req.image.None? || req.image.value.filename == "" || req.songTitle.None? || req.songTitle.value == ""
  }

  /** The reply for a comparison's outcome: a raised comparison is a 500 with its message, a score carries its tag. */
  function ScoreReply(score: Option<real>, frameIndex: int): (reply: PoseReply)
    ensures score.None? ==> reply == Failed(500, Some("Pose comparison failed"))
    ensures score.Some? ==> reply.Scored? && reply.score == score.value && reply.frameIndex == frameIndex
    ensures score.Some? ==> reply.feedback == ScoreTag(score.value)
  {
    match score
    case None => Failed(500, Some("Pose comparison failed"))
    case Some(s) => Scored(s, ScoreTag(s), frameIndex)
  }

  /** A request passes the frame number and parameter checks and carries bytes to decode. */
  predicate ReachesDetector(req: Request)
  {
    FrameIndexOf(req).Some? && !MissingParameters(req) && |req.image.value.bytes| > 0
  }

  class PoseServer {
    var userPoseQueue: Queues
    var refPoseQueue: Queues
    var poseCache: map<string, map<int, Option<Pose>>>
    var detectorOpen: bool

    /** The queue tables agree. */
    predicate Valid()
      reads this
    {
      QueuesAgree(userPoseQueue, refPoseQueue)
    }

    constructor ()
      ensures Valid()
      ensures userPoseQueue == map[] && refPoseQueue == map[] && poseCache == map[] && !detectorOpen
    {
      userPoseQueue := map[];
      refPoseQueue := map[];
      poseCache := map[];
      detectorOpen := false;
    }

    /** `get_ref_pose_from_disk`. */
    method GetRefPoseFromDisk(files: map<string, RefFile>, songTitle: string, frameIndex: int) returns (r: RefLookup)
      modifies this`poseCache
      ensures r == RefPose(old(poseCache), files, songTitle, frameIndex)
      ensures poseCache == CacheAfter(old(poseCache), files, songTitle)
    {
      if songTitle !in poseCache {
        var path := RefPosePath(songTitle);
        if path !in files {
          return Absent;
        }
        match files[path]
        case NotJson =>
          return Absent;
        case NotAnObject =>
          return Crashed;
        case Entries(entries) =>
          var poseDict := ConvertFrameKeys(entries);
          if poseDict.None? {
            return Crashed;
          }
          poseCache := poseCache[songTitle := poseDict.value];
      }
      r := PoseAt(poseCache[songTitle], frameIndex);
    }

    /**
     * `pose_eval` from the reference lookup on, for a request that carried a
     * detected pose: the lookup, the session's queues and the comparison.
     */
    method ScoreDetectedPose(files: map<string, RefFile>, songTitle: string, sid: Option<string>, idx: int, userKps: Pose,
                             single: (Pose, Pose) -> Option<real>, double: (Pose, Pose, Pose, Pose) -> Option<real>)
      returns (reply: PoseReply)
      requires Valid()
      modifies this`poseCache, this`userPoseQueue, this`refPoseQueue
      ensures Valid()
      ensures poseCache == CacheAfter(old(poseCache), files, songTitle)
      ensures RefPose(old(poseCache), files, songTitle, idx).Crashed? ==> reply == Failed(500, None)
      ensures RefPose(old(poseCache), files, songTitle, idx).Absent? ==>
        reply == Failed(400, Some("No reference pose for frame " + IntToString(idx)))
      ensures !RefPose(old(poseCache), files, songTitle, idx).Found? ==>
        userPoseQueue == old(userPoseQueue) && refPoseQueue == old(refPoseQueue)
      ensures RefPose(old(poseCache), files, songTitle, idx).Found? ==>
        var expert := RefPose(old(poseCache), files, songTitle, idx).pose;
        && userPoseQueue == Enqueue(old(userPoseQueue), sid, userKps)
        && refPoseQueue == Enqueue(old(refPoseQueue), sid, expert)
        && reply == ScoreReply(Compare(userPoseQueue[sid], refPoseQueue[sid], userKps, expert, single, double), idx)
    {
      var expert := GetRefPoseFromDisk(files, songTitle, idx);
      if expert.Crashed? {
        return Failed(500, None);
      }
      if expert.Absent? {
        return Failed(400, Some("No reference pose for frame " + IntToString(idx)));
      }
      var expertKps := expert.pose;
      // A session seen for the first time gets two empty queues, then both receive this frame.
      EnqueueInLockstep(userPoseQueue, refPoseQueue, sid, userKps, expertKps);
      userPoseQueue := Enqueue(userPoseQueue, sid, userKps);
      refPoseQueue := Enqueue(refPoseQueue, sid, expertKps);
      var score := Compare(userPoseQueue[sid], refPoseQueue[sid], userKps, expertKps, single, double);
      if score.None? {
        return Failed(500, Some("Pose comparison failed"));
      }
      reply := Scored(score.value, ScoreTag(score.value), idx);
    }

    /**
     * `pose_eval`: `detection` is what the detector makes of the uploaded
     * bytes, `files` the reference files on disk.
     */
    method PoseEval(req: Request, detection: Detection, files: map<string, RefFile>,
                    single: (Pose, Pose) -> Option<real>, double: (Pose, Pose, Pose, Pose) -> Option<real>)
      returns (reply: PoseReply)
      requires Valid()
      modifies this
      ensures Valid()
      // A frame number that is not an integer raises before anything else.
      ensures FrameIndexOf(req).None? ==> reply == Failed(500, None)
      ensures FrameIndexOf(req).Some? && MissingParameters(req) ==> reply == Failed(400, Some("Missing parameters"))
      // Decoding an empty upload raises before the detector is opened; a non-empty one opens it.
      ensures detectorOpen == (old(detectorOpen) || ReachesDetector(req))
      ensures FrameIndexOf(req).Some? && !MissingParameters(req) && |req.image.value.bytes| == 0 ==> reply == Failed(500, None)
      ensures ReachesDetector(req) && detection.Undecodable? ==> reply == Failed(500, None)
      ensures ReachesDetector(req) && detection.NoPose? ==> reply == Scored(0.0, "WORST", FrameIndexOf(req).value)
      // Only a detected pose reaches the reference poses, and only a found reference pose the queues.
      ensures poseCache == if ReachesDetector(req) && detection.Detected?
                           then CacheAfter(old(poseCache), files, req.songTitle.value) else old(poseCache)
      ensures ReachesDetector(req) && detection.Detected? ==>
        var idx := FrameIndexOf(req).value;
        var ref := RefPose(old(poseCache), files, req.songTitle.value, idx);
        && (ref.Crashed? ==> reply == Failed(500, None))
        && (ref.Absent? ==> reply == Failed(400, Some("No reference pose for frame " + IntToString(idx))))
        && (ref.Found? ==>
              && userPoseQueue == Enqueue(old(userPoseQueue), req.sessionId, detection.pose)
              && refPoseQueue == Enqueue(old(refPoseQueue), req.sessionId, ref.pose)
              && reply == ScoreReply(Compare(userPoseQueue[req.sessionId], refPoseQueue[req.sessionId],
                                             detection.pose, ref.pose, single, double), idx))
      ensures !(ReachesDetector(req) && detection.Detected?
                && RefPose(old(poseCache), files, req.songTitle.value, FrameIndexOf(req).value).Found?) ==>
        userPoseQueue == old(userPoseQueue) && refPoseQueue == old(refPoseQueue)
    {
      var frameIndex := FrameIndexOf(req);
      if frameIndex.None? {
        return Failed(500, None);
      }
      var idx := frameIndex.value;
      if MissingParameters(req) {
        return Failed(400, Some("Missing parameters"));
      }
      var image := req.image.value;
      if |image.bytes| == 0 {
        return Failed(500, None);
      }
      detectorOpen := true;
      if detection.Undecodable? {
        return Failed(500, None);
      }
      if detection.NoPose? {
        return Scored(0.0, "WORST", idx);
      }
      reply := ScoreDetectedPose(files, req.songTitle.value, req.sessionId, idx, detection.pose, single, double);
    }

    /** `cleanMemory`: closes the detector and empties every session's queues; `collected` is what the collector reports. */
    method CleanMemory(collected: int) returns (reply: PoseReply)
      modifies this
      ensures Valid()
      ensures userPoseQueue == map[] && refPoseQueue == map[]
      ensures !detectorOpen && poseCache == old(poseCache)
      ensures reply == Closed(collected)
    {
      detectorOpen := false;
      userPoseQueue := map[];
      refPoseQueue := map[];
      reply := Closed(collected);
    }
  }
}
