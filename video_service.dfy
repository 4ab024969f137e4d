/**
 * Storage keys and URLs for recorded videos and extracted frames, the
 * index-targeted frame extraction from a recorded video, and the frame
 * upload that follows it.
 */
module VideoService {
  import opened Wrappers
  import opened Strings
  import opened Storage

  const BucketName: string := "danzle-s3-bucket"
  const BucketUrl: string := "https://" + BucketName + ".s3.ap-northeast-2.amazonaws.com/"
  const VideoStorageDir: string := "user_videos/"
  const UserFramesDir: string := "user_frames/"

  /** The public URL of an object: the bucket URL followed by the key. */
  function ObjectUrl(key: string): string
  {
    BucketUrl + key
  }

  /** The key part of a stored URL: every occurrence of the bucket URL removed. */
  function StripBucketUrl(url: string): string
  {
    RemoveAll(url, BucketUrl)
  }

  /** Stripping the bucket URL gives the key back exactly when the key itself does not contain the bucket URL. */
  lemma {:induction false} StripObjectUrl(key: string)
    ensures StripBucketUrl(ObjectUrl(key)) == key <==> !Occurs(key, BucketUrl)
  {
    var n := |BucketUrl|;
    var u := ObjectUrl(key);
    assert u[..n] == BucketUrl;
    assert u[n..] == key;
    assert StripBucketUrl(u) == RemoveAll(key, BucketUrl);
    RemoveAllFixedIff(key, BucketUrl);
  }

  /** In particular a key without a ':' survives the round trip through its URL. */
  lemma StripObjectUrlOfPlainKey(key: string)
    requires ':' !in key
    ensures StripBucketUrl(ObjectUrl(key)) == key
  {
    assert BucketUrl[5] == ':';
    MissingCharRulesOutOccurrence(key, BucketUrl, 5);
    StripObjectUrl(key);
  }

  // ----- recorded videos -----

  datatype VideoMode = PRACTICE | CHALLENGE | ACCURACY

  function ModeName(m: VideoMode): string
  {
    match m
    case PRACTICE => "PRACTICE"
    case CHALLENGE => "CHALLENGE"
    case ACCURACY => "ACCURACY"
  }

  datatype VideoError =
    | SessionNotExists                     // an accuracy recording whose session row is missing
    | UploadFailed                         // the object store refused a put
    | FrameCountFailed                     // "총 프레임 수 추출 실패"
    | ExtractAndUploadFailed               // "여러 프레임 추출 및 업로드 실패"

  /**
   * The object key a recorded video is stored under. `accuracySessionMode`
   * is the mode of the accuracy session with id `sessionId`, None when no
   * such session exists; it is consulted only for accuracy recordings.
   */
  function RecordedVideoKey(userId: int, mode: VideoMode, sessionId: int,
                            accuracySessionMode: Option<string>): (r: Result<string, VideoError>)
    ensures mode != ACCURACY ==>
      r == Success(VideoStorageDir + IntToString(userId) + "_" + ModeName(mode) + "_" + IntToString(sessionId) + ".mp4")
    ensures mode == ACCURACY ==> (r.Failure? <==> accuracySessionMode.None?)
    ensures mode == ACCURACY && accuracySessionMode.Some? ==>
      r.value == VideoStorageDir + IntToString(userId) + "_ACCURACY_" + accuracySessionMode.value
                 + "_" + IntToString(sessionId) + ".mp4"
  {
    var fileName := VideoStorageDir + IntToString(userId) + "_" + ModeName(mode) + "_" + IntToString(sessionId) + ".mp4";
    if mode == ACCURACY then
      match accuracySessionMode
      case None => Failure(SessionNotExists)
      case Some(m) =>
        Success(VideoStorageDir + IntToString(userId) + "_ACCURACY_" + m + "_" + IntToString(sessionId) + ".mp4")
    else
      Success(fileName)
  }

  /** A stored recording's URL strips back to its key when the session mode holds no ':'. */
  lemma RecordedVideoUrlStrips(userId: int, mode: VideoMode, sessionId: int, accuracySessionMode: Option<string>)
    requires accuracySessionMode.Some? ==> ':' !in accuracySessionMode.value
    requires RecordedVideoKey(userId, mode, sessionId, accuracySessionMode).Success?
    ensures var key := RecordedVideoKey(userId, mode, sessionId, accuracySessionMode).value;
            StripBucketUrl(ObjectUrl(key)) == key
  {
    var key := RecordedVideoKey(userId, mode, sessionId, accuracySessionMode).value;
    IntToStringHasNoColon(userId);
    IntToStringHasNoColon(sessionId);
    var u, s := IntToString(userId), IntToString(sessionId);
    assert ':' !in VideoStorageDir && ':' !in "_" && ':' !in ".mp4";
    if mode == ACCURACY {
      var m := accuracySessionMode.value;
      assert ':' !in "_ACCURACY_";
      assert key == ((((VideoStorageDir + u) + "_ACCURACY_") + m) + "_" + s) + ".mp4";
    } else {
      assert ':' !in ModeName(mode);
      assert key == ((((VideoStorageDir + u) + "_") + ModeName(mode)) + "_" + s) + ".mp4";
    }
    assert ':' !in key;
    StripObjectUrlOfPlainKey(key);
  }

  datatype RecordedVideo = RecordedVideo(id: int, videoPath: string)

  datatype EditReply = Updated | NotFound

  /**
   * `editVideo`: re-uploads `file` under the key recovered from the stored
   * path and points the record at the new URL. Failure is the upload error
   * that escapes the call.
   */
  method EditVideo(store: BlobStore, video: Option<RecordedVideo>, file: Video)
    returns (r: Result<EditReply, VideoError>, saved: Option<RecordedVideo>)
    modifies store`objects
    ensures video.None? ==> r == Success(NotFound) && saved == None && store.objects == old(store.objects)
    ensures video.Some? ==>
      var key := StripBucketUrl(video.value.videoPath);
      if key in store.failingKeys then
        r == Failure(UploadFailed) && saved == None && store.objects == old(store.objects)
      else
        r == Success(Updated) && saved == Some(video.value.(videoPath := ObjectUrl(key)))
        && store.objects == old(store.objects)[key := VideoFile(file)]
  {
    if video.None? {
      return Success(NotFound), None;
    }
    var key := StripBucketUrl(video.value.videoPath);
    var ok := store.PutObject(key, VideoFile(file));
    if !ok {
      return Failure(UploadFailed), None;
    }
    r := Success(Updated);
    saved := Some(video.value.(videoPath := ObjectUrl(key)));
  }

  /** Editing a recording whose path came from its key overwrites that same key and keeps the path. */
  lemma EditKeepsRecordedPath(key: string)
    requires ':' !in key
    ensures StripBucketUrl(ObjectUrl(key)) == key
    ensures ObjectUrl(StripBucketUrl(ObjectUrl(key))) == ObjectUrl(key)
  {
    StripObjectUrlOfPlainKey(key);
  }

  // ----- frame keys -----

  /** The key an extracted frame is uploaded under. */
  function UserFrameKey(userId: int, sessionId: int, frameIndex: int): string
  {
    UserFramesDir + IntToString(userId) + "/" + IntToString(sessionId) + "_" + IntToString(frameIndex) + ".jpg"
  }

  /** Different frames of one session never share a key. */
  lemma UserFrameKeyInjective(userId: int, sessionId: int, a: int, b: int)
    requires UserFrameKey(userId, sessionId, a) == UserFrameKey(userId, sessionId, b)
    ensures a == b
  {
    var p := UserFramesDir + IntToString(userId) + "/" + IntToString(sessionId) + "_";
    var ka := UserFrameKey(userId, sessionId, a);
    var kb := UserFrameKey(userId, sessionId, b);
    assert ka == p + IntToString(a) + ".jpg";
    assert kb == p + IntToString(b) + ".jpg";
    assert ka[|p|..|ka| - 4] == IntToString(a);
    assert kb[|p|..|kb| - 4] == IntToString(b);
    IntToStringInjective(a, b);
  }

  /** A frame key holds no ':', so its URL strips back to it. */
  lemma UserFrameUrlStrips(userId: int, sessionId: int, frameIndex: int)
    ensures StripBucketUrl(ObjectUrl(UserFrameKey(userId, sessionId, frameIndex))) == UserFrameKey(userId, sessionId, frameIndex)
  {
    var u, s, f := IntToString(userId), IntToString(sessionId), IntToString(frameIndex);
    IntToStringHasNoColon(userId);
    IntToStringHasNoColon(sessionId);
    IntToStringHasNoColon(frameIndex);
    assert ':' !in UserFramesDir && ':' !in "/" && ':' !in "_" && ':' !in ".jpg";
    var key := UserFrameKey(userId, sessionId, frameIndex);
    assert key == (((((UserFramesDir + u) + "/") + s) + "_") + f) + ".jpg";
    assert ':' !in key;
    StripObjectUrlOfPlainKey(key);
  }

  // ----- rotation -----

  /** The converter's image of a frame, not yet turned. */
  function ToImage(f: Frame): Image
  {
    Image(f.width, f.height, f, 0)
  }

  /** `rotateImage`, as far as the resulting dimensions go. */
  function RotateImage(img: Image, angle: int): (r: Image)
    ensures r.source == img.source
    ensures angle == 90 || angle == 270 ==> r.width == img.height && r.height == img.width
    ensures angle == 180 ==> r.width == img.width && r.height == img.height
    ensures angle != 90 && angle != 180 && angle != 270 ==> r == img
  {
    if angle == 90 || angle == 270 then Image(img.height, img.width, img.source, angle)
    else if angle == 180 then Image(img.width, img.height, img.source, angle)
    else img
  }

  /** The image kept for a frame: converted, then turned unless the rotation is 0. */
  function Corrected(f: Frame, rotation: int): Image
  {
    if rotation != 0 then RotateImage(ToImage(f), rotation) else ToImage(f)
  }

  /** Width and height trade places exactly for a quarter turn either way; any other rotation keeps them. */
  lemma CorrectedDimensions(f: Frame, rotation: int)
    ensures Corrected(f, rotation).source == f
    ensures rotation == 90 || rotation == 270 ==>
      Corrected(f, rotation).width == f.height && Corrected(f, rotation).height == f.width
    ensures rotation != 90 && rotation != 270 ==>
      Corrected(f, rotation).width == f.width && Corrected(f, rotation).height == f.height
    ensures rotation != 90 && rotation != 180 && rotation != 270 ==> Corrected(f, rotation) == ToImage(f)
  {
  }

  /** The rotation a video declares: 0 without metadata, None when the metadata is not a Java int. */
  function RotationOf(v: Video): Option<int>
  {
    match v.rotate
    case None => Some(0)
    case Some(text) => JavaParseInt(text)
  }

  // ----- extraction -----

  /** The largest element of a non-empty sequence (`Collections.max`). */
  function SeqMax(s: seq<int>): (m: int)
    requires |s| > 0
    ensures m in s
    ensures forall x :: x in s ==> x <= m
  {
    if |s| == 1 then s[0]
    else
      var rest := SeqMax(s[1..]);
      assert forall x :: x in s ==> x == s[0] || x in s[1..];
      if s[0] >= rest then s[0] else rest
  }

  datatype ExtractError =
    | EmptyRequest                                 // "추출할 프레임 인덱스가 없습니다."
    | DecodeError                                  // the grabber cannot open the stream
    | MalformedRotation                            // the rotate metadata fails Integer.parseInt
    | IndexOutOfRange(index: int, totalFrames: int) // "Frame index ... exceeds total frames: ..."

  /** The frames a complete extraction keeps: every requested index the decoder actually yields. */
  function KeptFrames(v: Video, rotation: int, targets: seq<int>): map<int, Image>
  {
    map k | k in targets && 0 <= k < |v.frames| :: Corrected(v.frames[k], rotation)
  }

  /** The frames a decode that has consumed the first `n` frames has kept so far. */
  function KeptBelow(v: Video, rotation: int, targets: seq<int>, n: nat): map<int, Image>
    requires n <= |v.frames|
  {
    map k | k in targets && 0 <= k < n :: Corrected(v.frames[k], rotation)
  }

  /** Decoding one more frame keeps it exactly when it was requested. */
  lemma KeptBelowStep(v: Video, rotation: int, targets: seq<int>, n: nat)
    requires n < |v.frames|
    ensures n in targets ==>
      KeptBelow(v, rotation, targets, n + 1) == KeptBelow(v, rotation, targets, n)[n := Corrected(v.frames[n], rotation)]
    ensures n !in targets ==> KeptBelow(v, rotation, targets, n + 1) == KeptBelow(v, rotation, targets, n)
  {
  }

  /** Once past every requested index, or at the end of the stream, the decode has kept all it ever will. */
  lemma KeptBelowComplete(v: Video, rotation: int, targets: seq<int>, n: nat)
    requires n <= |v.frames|
    requires n == |v.frames| || forall x :: x in targets ==> x < n
    ensures KeptBelow(v, rotation, targets, n) == KeptFrames(v, rotation, targets)
  {
  }

  /** Whether `r` is an outcome `extractMultipleFramesFromVideo` may produce for `v` and `targets`. */
  predicate IsExtractionOutcome(v: Video, targets: seq<int>, r: Result<map<int, Image>, ExtractError>)
  {
    if |targets| == 0 then r == Failure(EmptyRequest)
    else if !v.playable then r == Failure(DecodeError)
    else match RotationOf(v)
      case None => r == Failure(MalformedRotation)
      case Some(rotation) =>
        if exists i | i in targets :: i >= v.lengthInFrames then
          r.Failure? && r.error.IndexOutOfRange? && r.error.index in targets
          && r.error.index >= v.lengthInFrames && r.error.totalFrames == v.lengthInFrames
        else
          r == Success(KeptFrames(v, rotation, targets))
  }

  /** The frames the extraction yields, or None when it throws. */
  function ExtractedFrames(v: Video, targets: seq<int>): Option<map<int, Image>>
  {
    if |targets| == 0 || !v.playable || RotationOf(v).None?
       || exists i | i in targets :: i >= v.lengthInFrames then None
    else Some(KeptFrames(v, RotationOf(v).value, targets))
  }

  /** The outcome is determined up to which offending index is reported, and `ExtractedFrames` is its success value. */
  lemma ExtractionOutcomeAgrees(v: Video, targets: seq<int>, r: Result<map<int, Image>, ExtractError>)
    requires IsExtractionOutcome(v, targets, r)
    ensures r.Success? <==> ExtractedFrames(v, targets).Some?
    ensures r.Success? ==> r.value == ExtractedFrames(v, targets).value
  {
  }

  /** A successful extraction holds exactly the requested indices that were read, each the corrected frame at that position. */
  lemma KeptFramesContents(v: Video, rotation: int, targets: seq<int>)
    ensures KeptFrames(v, rotation, targets).Keys == set k | k in targets && 0 <= k < |v.frames|
    ensures forall k :: k in KeptFrames(v, rotation, targets) ==>
      KeptFrames(v, rotation, targets)[k].source == v.frames[k]
  {
    forall k | k in KeptFrames(v, rotation, targets)
      ensures KeptFrames(v, rotation, targets)[k].source == v.frames[k]
    {
      CorrectedDimensions(v.frames[k], rotation);
    }
  }

  /** Repeating a requested index changes nothing. */
  lemma DuplicateTargetsCollapse(v: Video, targets: seq<int>, i: nat)
    requires i < |targets|
    ensures ExtractedFrames(v, targets + [targets[i]]) == ExtractedFrames(v, targets)
  {
    var t2 := targets + [targets[i]];
    assert forall x :: x in t2 <==> x in targets;
    if RotationOf(v).Some? {
      assert KeptFrames(v, RotationOf(v).value, t2) == KeptFrames(v, RotationOf(v).value, targets);
    }
  }

  /**
   * `extractMultipleFramesFromVideo`. `framesRead` counts the frames the
   * forward-only decode consumed: none when a check fails first, otherwise
   * up to and including the largest requested index, or fewer if the stream
   * ends before it.
   */
  method ExtractMultipleFramesFromVideo(v: Video, targetIndices: seq<int>)
    returns (r: Result<map<int, Image>, ExtractError>, framesRead: nat)
    ensures IsExtractionOutcome(v, targetIndices, r)
    ensures r.Failure? ==> framesRead == 0
    ensures r.Success? ==>
      var last := SeqMax(targetIndices);
      framesRead == if last < 0 then 0 else if last + 1 < |v.frames| then last + 1 else |v.frames|
  {
    var targetSet := set x | x in targetIndices;
    if |targetIndices| == 0 {
      return Failure(EmptyRequest), 0;
    }
    if !v.playable {
      return Failure(DecodeError), 0;
    }
    var rotationTag := RotationOf(v);
    if rotationTag.None? {
      return Failure(MalformedRotation), 0;
    }
    var rotation := rotationTag.value;
    var totalFrames := v.lengthInFrames;
    var i := 0;
    while i < |targetIndices|
      invariant 0 <= i <= |targetIndices|
      invariant forall j :: 0 <= j < i ==> targetIndices[j] < totalFrames
    {
      if targetIndices[i] >= totalFrames {
        return Failure(IndexOutOfRange(targetIndices[i], totalFrames)), 0;
      }
      i := i + 1;
    }
    assert forall x :: x in targetIndices ==> x < totalFrames;

    var last := SeqMax(targetIndices);
    var resultMap: map<int, Image> := map[];
    var currentFrame := 0;
    while currentFrame <= last && currentFrame < |v.frames|
      invariant 0 <= currentFrame <= |v.frames|
      invariant currentFrame == 0 || currentFrame <= last + 1
      invariant resultMap == KeptBelow(v, rotation, targetIndices, currentFrame)
    {
      KeptBelowStep(v, rotation, targetIndices, currentFrame);
      if currentFrame in targetSet {
        var img := ToImage(v.frames[currentFrame]);
        if rotation != 0 {
          img := RotateImage(img, rotation);
        }
        assert img == Corrected(v.frames[currentFrame], rotation);
        resultMap := resultMap[currentFrame := img];
      }
      currentFrame := currentFrame + 1;
    }
    KeptBelowComplete(v, rotation, targetIndices, currentFrame);
    r := Success(resultMap);
    framesRead := currentFrame;
  }

  // ----- upload -----

  /** `uploadImageToS3`: the frame goes under its key and the call answers the key's URL. */
  method UploadImageToS3(store: BlobStore, image: Image, userId: int, sessionId: int, frameIndex: int)
    returns (r: Result<string, VideoError>)
    modifies store`objects
    ensures var key := UserFrameKey(userId, sessionId, frameIndex);
      if key in store.failingKeys then
        r == Failure(UploadFailed) && store.objects == old(store.objects)
      else
        r == Success(ObjectUrl(key)) && store.objects == old(store.objects)[key := JpegFile(image)]
  {
    var uploadKey := UserFrameKey(userId, sessionId, frameIndex);
    var ok := store.PutObject(uploadKey, JpegFile(image));
    if !ok {
      return Failure(UploadFailed);
    }
    r := Success(ObjectUrl(uploadKey));
  }

  /** What the grabber sees in an object; an image object does not open as a video. */
  function AsVideo(b: Blob): Video
  {
    match b
    case VideoFile(v) => v
    case JpegFile(_) => Video(false, None, 0, [])
  }

  /** `getTotalFrameCount`: the frame count the container reports. */
  function TotalFrameCount(objects: map<string, Blob>, key: string): (r: Result<int, VideoError>)
    ensures r.Success? <==> key in objects && AsVideo(objects[key]).playable
    ensures r.Success? ==> r.value == AsVideo(objects[key]).lengthInFrames
    ensures r.Failure? ==> r.error == FrameCountFailed
  {
    if key !in objects || !AsVideo(objects[key]).playable then Failure(FrameCountFailed)
    else Success(AsVideo(objects[key]).lengthInFrames)
  }

  method GetTotalFrameCount(store: BlobStore, s3VideoKey: string) returns (r: Result<int, VideoError>)
    ensures r == TotalFrameCount(store.objects, s3VideoKey)
  {
    var blob := store.GetObject(s3VideoKey);
    if blob.None? {
      return Failure(FrameCountFailed);
    }
    var video := AsVideo(blob.value);
    if !video.playable {
      return Failure(FrameCountFailed);
    }
    r := Success(video.lengthInFrames);
  }

  /** The frames `extractAndUploadMultipleFrames` extracts from the object under `videoKey`, None when extraction throws. */
  function FramesFromObject(objects: map<string, Blob>, videoKey: string, frameIndices: seq<int>): Option<map<int, Image>>
  {
    if videoKey !in objects then None
    else ExtractedFrames(AsVideo(objects[videoKey]), frameIndices)
  }

  /** The keys the uploads of a set of frames write. */
  function FrameKeys(userId: int, sessionId: int, indices: set<int>): set<string>
  {
    set k | k in indices :: UserFrameKey(userId, sessionId, k)
  }

  /** The URL map a complete run returns: one URL per extracted frame, under the same index. */
  function FrameUrls(userId: int, sessionId: int, indices: set<int>): map<int, string>
  {
    map k | k in indices :: ObjectUrl(UserFrameKey(userId, sessionId, k))
  }

  /** `before` and `after` agree on every key outside the frame keys of `indices`. */
  ghost predicate SameOutside(before: map<string, Blob>, after: map<string, Blob>, userId: int, sessionId: int, indices: set<int>)
  {
    forall key :: key !in FrameKeys(userId, sessionId, indices) ==> Lookup(after, key) == Lookup(before, key)
  }

  /** A URL map's URLs all strip back to the keys of the same indices. */
  lemma FrameUrlsStrip(userId: int, sessionId: int, indices: set<int>)
    ensures forall k :: k in FrameUrls(userId, sessionId, indices) ==>
      StripBucketUrl(FrameUrls(userId, sessionId, indices)[k]) == UserFrameKey(userId, sessionId, k)
  {
    forall k | k in FrameUrls(userId, sessionId, indices)
      ensures StripBucketUrl(FrameUrls(userId, sessionId, indices)[k]) == UserFrameKey(userId, sessionId, k)
    {
      UserFrameUrlStrips(userId, sessionId, k);
    }
  }

  /**
   * `extractAndUploadMultipleFrames`. A complete run uploads every extracted
   * frame under its key and returns their URLs; any failure is the single
   * wrapped error, after which each frame key holds either its old object or
   * the new frame, and nothing else was touched.
   */
  method ExtractAndUploadMultipleFrames(store: BlobStore, s3VideoPath: string, frameIndices: seq<int>,
                                        sessionId: int, mode: string, userId: int)
    returns (r: Result<map<int, string>, VideoError>)
    modifies store`objects
    ensures var frames := FramesFromObject(old(store.objects), s3VideoPath, frameIndices);
      && (frames.None? ==> r == Failure(ExtractAndUploadFailed) && store.objects == old(store.objects))
      && (frames.Some? ==>
            && (r.Success? <==> FrameKeys(userId, sessionId, frames.value.Keys) !! store.failingKeys)
            && (r.Failure? ==> r.error == ExtractAndUploadFailed)
            && SameOutside(old(store.objects), store.objects, userId, sessionId, frames.value.Keys)
            && (forall k :: k in frames.value ==>
                  Lookup(store.objects, UserFrameKey(userId, sessionId, k))
                  in {Lookup(old(store.objects), UserFrameKey(userId, sessionId, k)), Some(JpegFile(frames.value[k]))})
            && (r.Success? ==>
                  r.value == FrameUrls(userId, sessionId, frames.value.Keys)
                  && forall k :: k in frames.value ==>
                       Lookup(store.objects, UserFrameKey(userId, sessionId, k)) == Some(JpegFile(frames.value[k]))))
  {
    ghost var before := store.objects;
    var blob := store.GetObject(s3VideoPath);
    if blob.None? {
      return Failure(ExtractAndUploadFailed);
    }
    var extracted, _ := ExtractMultipleFramesFromVideo(AsVideo(blob.value), frameIndices);
    ExtractionOutcomeAgrees(AsVideo(blob.value), frameIndices, extracted);
    if extracted.Failure? {
      return Failure(ExtractAndUploadFailed);
    }
    var frames := extracted.value;
    var uploadedUrls: map<int, string> := map[];
    var pending := frames.Keys;
    ghost var done: set<int> := {};
    while pending != {}
      invariant pending + done == frames.Keys && pending !! done
      invariant uploadedUrls == FrameUrls(userId, sessionId, done)
      invariant FrameKeys(userId, sessionId, done) !! store.failingKeys
      invariant SameOutside(before, store.objects, userId, sessionId, done)
      invariant forall k :: k in done ==>
        Lookup(store.objects, UserFrameKey(userId, sessionId, k)) == Some(JpegFile(frames[k]))
      decreases pending
    {
      var k :| k in pending;
      ghost var mid := store.objects;
      var url := UploadImageToS3(store, frames[k], userId, sessionId, k);
      if url.Failure? {
        PartialUploadState(before, store.objects, userId, sessionId, frames, done);
        assert UserFrameKey(userId, sessionId, k) in FrameKeys(userId, sessionId, frames.Keys);
        return Failure(ExtractAndUploadFailed);
      }
      AfterUpload(before, mid, store.objects, userId, sessionId, frames, done, k);
      uploadedUrls := uploadedUrls[k := url.value];
      pending := pending - {k};
      done := done + {k};
    }
    r := Success(uploadedUrls);
  }

  lemma FrameKeysAdd(userId: int, sessionId: int, done: set<int>, k: int)
    ensures FrameKeys(userId, sessionId, done + {k}) == FrameKeys(userId, sessionId, done) + {UserFrameKey(userId, sessionId, k)}
  {
  }

  lemma FrameKeysMonotone(userId: int, sessionId: int, small: set<int>, large: set<int>)
    requires small <= large
    ensures FrameKeys(userId, sessionId, small) <= FrameKeys(userId, sessionId, large)
  {
  }

  /** The key of a frame outside `done` is not among the keys of `done`. */
  lemma FrameKeyOutside(userId: int, sessionId: int, done: set<int>, k: int)
    requires k !in done
    ensures UserFrameKey(userId, sessionId, k) !in FrameKeys(userId, sessionId, done)
  {
    if UserFrameKey(userId, sessionId, k) in FrameKeys(userId, sessionId, done) {
      var j :| j in done && UserFrameKey(userId, sessionId, j) == UserFrameKey(userId, sessionId, k);
      UserFrameKeyInjective(userId, sessionId, j, k);
    }
  }

  /** One more successful upload extends the uploaded part by frame `k`. */
  lemma AfterUpload(before: map<string, Blob>, mid: map<string, Blob>, after: map<string, Blob>,
                    userId: int, sessionId: int, frames: map<int, Image>, done: set<int>, k: int)
    requires k in frames && k !in done && done <= frames.Keys
    requires SameOutside(before, mid, userId, sessionId, done)
    requires forall j :: j in done ==> Lookup(mid, UserFrameKey(userId, sessionId, j)) == Some(JpegFile(frames[j]))
    requires after == mid[UserFrameKey(userId, sessionId, k) := JpegFile(frames[k])]
    ensures SameOutside(before, after, userId, sessionId, done + {k})
    ensures forall j :: j in done + {k} ==> Lookup(after, UserFrameKey(userId, sessionId, j)) == Some(JpegFile(frames[j]))
    ensures FrameUrls(userId, sessionId, done + {k}) == FrameUrls(userId, sessionId, done)[k := ObjectUrl(UserFrameKey(userId, sessionId, k))]
  {
    FrameKeysAdd(userId, sessionId, done, k);
    forall j | j in done
      ensures UserFrameKey(userId, sessionId, j) != UserFrameKey(userId, sessionId, k)
    {
      if UserFrameKey(userId, sessionId, j) == UserFrameKey(userId, sessionId, k) {
        UserFrameKeyInjective(userId, sessionId, j, k);
      }
    }
  }

  /** While uploading, every frame key holds its old object or its new frame, and no other key changed. */
  lemma PartialUploadState(before: map<string, Blob>, after: map<string, Blob>,
                           userId: int, sessionId: int, frames: map<int, Image>, done: set<int>)
    requires done <= frames.Keys
    requires SameOutside(before, after, userId, sessionId, done)
    requires forall j :: j in done ==> Lookup(after, UserFrameKey(userId, sessionId, j)) == Some(JpegFile(frames[j]))
    ensures SameOutside(before, after, userId, sessionId, frames.Keys)
    ensures forall k :: k in frames ==>
      Lookup(after, UserFrameKey(userId, sessionId, k))
      in {Lookup(before, UserFrameKey(userId, sessionId, k)), Some(JpegFile(frames[k]))}
  {
    FrameKeysMonotone(userId, sessionId, done, frames.Keys);
    forall k | k in frames && k !in done
      ensures Lookup(after, UserFrameKey(userId, sessionId, k)) == Lookup(before, UserFrameKey(userId, sessionId, k))
    {
      FrameKeyOutside(userId, sessionId, done, k);
    }
  }
}
