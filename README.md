# Danzle scoring core in Dafny

Danzle is a dance-practice service. A user records themselves dancing to a
song. A Spring server stores the recording in an S3 bucket, sends frames to
a Flask pose scorer and keeps each frame's verdict. It then grades the
session and asks a vision model for feedback on the worst frames. This
project models the parts of that pipeline that decide outcomes and proves
properties about them:

- **Accuracy sessions** (`accuracy_session_service.dfy`):
  - creating a session, with mode validation and lowercasing;
  - turning the scorer's HTTP reply into a stored frame evaluation;
  - counting tags into the Perfect/Good/Normal/Bad/Miss tally, computing the weighted percentage and grading it;
  - the low-score feedback run: the frame filter, the expert and user image URLs, the top-three line formatting, the per-frame results, saving the answers and setting the completion flag.
- **Videos** (`video_service.dfy`, over the bucket model in `storage.dfy`):
  - object keys and URLs, and stripping the bucket URL from a stored path;
  - the recorded-video file name, and re-uploading an edited video;
  - forward-only frame extraction with its range check and rotation;
  - the rotation rule's output dimensions;
  - uploading each extracted frame, and reading a video's frame count.
- **Practice sessions** (`practice_session_service.dfy`): the section switch, the session times, and the two boundary queries.
- **Session response** (`session_response.dfy`): the duration string, hiding the times in full mode, and copying the fields.
- **Pose scorer** (`pose_eval_server.dfy`):
  - request validation and the score-to-tag thresholds;
  - each session's two-entry pose queues, which choose between single-frame and double-frame comparison;
  - the reference-pose cache;
  - `/save` clearing every queue.
- **The two servers together** (`end_to_end.dfy`): the scorer's replies as the accuracy service reads them.
- **Shared definitions**:
  - `strings.dfy` models the Java and Python string operations the code relies on: `String.format("%0Nd")`, `Integer.parseInt`, Python `int()`, `equalsIgnoreCase`/`toLowerCase`, `trim`, `isBlank`, `split`, `replace`;
  - `entities.dfy` holds the entities, the time arithmetic and the evaluation repository;
  - `wrappers.dfy` holds `Option` and `Result`.

State the source changes in place is modelled by classes. These are the
accuracy session, the frame-evaluation table, the bucket, the practice
session table and the pose server's dictionaries. Their methods state the
new state of everything they may modify, as far as the source fixes it. After a
part-way upload failure, each frame key holds either its old object or the new
frame, because the order of a `HashMap` is not fixed. The methods are proved
against specification functions, and lemmas
state what the source promises about those functions. Repository lookups,
the clock, the object store's transport failures and the vision model's
answers are parameters.

## Model

| member | source | states |
|---|---|---|
| AccuracySessionService.AcceptedMode | spring_server/java/service/AccuracySessionService.java:211-213 | a mode is accepted iff it equals "full" or "highlight" ignoring case; the stored value is that word in lower case |
| AccuracySessionService.CreateAccuracySession | spring_server/java/service/AccuracySessionService.java:204-228 | user lookup first, then song, then mode, each failing with its message; a new session gets the lowercased mode, score 0, start = end = now, feedback not completed and no result level |
| AccuracySessionService.EvaluationFromReply | spring_server/java/service/AccuracySessionService.java:163-183 | a reply is accepted iff it is 2xx with a body holding a numeric "score" and a string-or-null "feedback"; a 4xx/5xx is an HTTP error; an accepted reply gives a row with that score, that tag and this session and frame |
| AccuracySessionService.AnalyzeAndStoreFrameStep | spring_server/java/service/AccuracySessionService.java:146-186 | user, song and session are checked in that order with their messages; otherwise the outcome is the reply's evaluation; the new id is the table's generated key, which no row has yet, so on success the table gains exactly that row and grows by one, and on failure it is unchanged |
| AccuracySessionService.TierOf | spring_server/java/service/AccuracySessionService.java:332-337 | a tag counts as Perfect, Good, Normal or Bad iff it equals that word ignoring case; anything else, null included, is a miss |
| AccuracySessionService.TierOfScorerTags | spring_server/java/service/AccuracySessionService.java:333-337 | the scorer's five tags, its "WORST" and a null tag land in the matching tier, with Worst, WORST and null as misses |
| AccuracySessionService.TallyTotal | spring_server/java/service/AccuracySessionService.java:330-341 | the five counters add up to the number of frames |
| AccuracySessionService.TallyIsHistogram | spring_server/java/service/AccuracySessionService.java:330-338 | each counter is the number of frames whose tag falls in that tier |
| AccuracySessionService.PercentageAtLeast | spring_server/java/service/AccuracySessionService.java:341-344 | for a non-empty tally the percentage is at least k iff 100 times the weighted score is at least 3k times the frame count |
| AccuracySessionService.PercentageRange | spring_server/java/service/AccuracySessionService.java:342-344 | the percentage lies between 0 and 400/3, and reaches 400/3 exactly when every frame is perfect |
| AccuracySessionService.GradeOf | spring_server/java/service/AccuracySessionService.java:346-351 | the grade is one of five words, each exactly on its band: [80,∞), [60,80), [50,60), [40,50) and below 40 |
| AccuracySessionService.GradeMonotone | spring_server/java/service/AccuracySessionService.java:346-351 | a higher percentage never gets a lower grade |
| AccuracySessionService.GradeByCounts | spring_server/java/service/AccuracySessionService.java:341-351 | the grade read off the counters: Perfect iff 100·score ≥ 240·frames, Good iff 180·frames ≤ 100·score < 240·frames, Miss iff 100·score < 120·frames |
| AccuracySessionService.GetAccuracySummary | spring_server/java/service/AccuracySessionService.java:319-386 | a missing session and a session without frames fail with the rewrapped messages; otherwise the counters are the tally, the level is the grade of its percentage and is written to the session, and no other session field changes |
| AccuracySessionService.UserVideoKeyIsRecordedKey | spring_server/java/service/AccuracySessionService.java:240 | the key the feedback run reads is the key under which an accuracy recording is saved |
| AccuracySessionService.ExpertImageUrlNamesFrame | spring_server/java/service/AccuracySessionService.java:266-268 | the expert image URL is the song's folder plus a zero-padded number and ".jpg"; that number parses back to the frame index, and it is four digits for 0 ≤ index < 10000 |
| AccuracySessionService.DigitsLength | spring_server/java/service/AccuracySessionService.java:266 | a number below 10000 has at most four digits, so "%04d" pads it to exactly four |
| AccuracySessionService.FrameIndicesToExtract | spring_server/java/service/AccuracySessionService.java:246-252 | the indices sent for extraction are exactly those low-score frame indices below the frame count |
| AccuracySessionService.NonBlankTrimmedAppend | spring_server/java/service/AccuracySessionService.java:286-288 | trimming and dropping blank lines works piece by piece over a concatenation |
| AccuracySessionService.NonBlankTrimmedKeepsCleanLines | spring_server/java/service/AccuracySessionService.java:286-288 | lines already trimmed and non-blank pass through unchanged |
| AccuracySessionService.TopFeedbackLinesOfCleanText | spring_server/java/service/AccuracySessionService.java:285-291 | for text made of clean lines the result is its first three lines, numbered "1. ", "2. ", "3. " |
| AccuracySessionService.TopFeedbackLinesIgnoresTail | spring_server/java/service/AccuracySessionService.java:289 | once three usable lines have been seen, the rest of the text does not matter |
| AccuracySessionService.FormatFeedback | spring_server/java/service/AccuracySessionService.java:285-291 | the formatted feedback is exactly the first three trimmed non-blank lines of the answer split at newlines, numbered from 1 |
| AccuracySessionService.NumberFirstThree | spring_server/java/service/AccuracySessionService.java:286-291 | the counting loop over the split lines stops after three kept lines and yields the first three trimmed non-blank ones, numbered by the counter from 1 |
| AccuracySessionService.FeedbackResults | spring_server/java/service/AccuracySessionService.java:263-305 | one result per low-score frame, in query order |
| AccuracySessionService.SavedRowsContents | spring_server/java/service/AccuracySessionService.java:280-283 | each answered frame's row holds the full answer text, and every other row is unchanged |
| AccuracySessionService.NoIndicesToExtract | spring_server/java/service/AccuracySessionService.java:246-254 | when every low-score frame lies at or past the frame count, nothing is extracted |
| AccuracySessionService.NoValidFrameGivesEmptyList | spring_server/java/service/AccuracySessionService.java:254-257 | then the run answers an empty list and neither the completion flag nor the rows are touched |
| AccuracySessionService.FeedbackResultShape | spring_server/java/service/AccuracySessionService.java:263-278 | once the oracle stage is reached, there is one result per low-score frame, carrying its frame index and expert URL; a frame at or past the frame count, or negative, is never decoded and gets the skip message with no user URL |
| AccuracySessionService.AnsweredAndFailedFrames | spring_server/java/service/AccuracySessionService.java:280-303 | a frame with a user image shows at most three numbered lines of its answer with its user URL, or the single failure line; another frame's oracle outcome does not change it |
| AccuracySessionService.FeedbackForFrame | spring_server/java/service/AccuracySessionService.java:264-303 | one frame's result, and its answer saved to the row only when it was answered |
| AccuracySessionService.CollectFeedback | spring_server/java/service/AccuracySessionService.java:263-313 | all results in order, every answered row saved, and the completion flag set |
| AccuracySessionService.GenerateLowScoreFeedback | spring_server/java/service/AccuracySessionService.java:232-314 | a missing session fails with "Session not found: "; otherwise the outcome is that of the frame-count, filter, extract-and-upload and oracle stages, and the flag and saved answers change iff the oracle stage is reached; the bucket is unchanged unless frames were extracted, only those frames' keys are written, each holding its old object or its new frame, and all of them hold the new frames when the oracle stage is reached |
| AccuracySessionService.ReachesOracleIffUploaded | spring_server/java/service/AccuracySessionService.java:246-262 | the oracle stage is reached exactly when frames were extracted and none of their frame keys fails to upload |
| Entities.DurationSeconds | dto/AccuracySessionResponse.java:59-60 | whole seconds between two instants, rounded toward negative infinity |
| Entities.FrameEvaluationRepository.Save | spring_server/java/service/AccuracySessionService.java:185 | the saved row replaces the row with its id |
| Storage.BlobStore.GetObject | spring_server/src/main/java/capston/capston_spring/service/VideoService.java:320-325 | the stored object under the key, or none |
| Storage.BlobStore.PutObject | spring_server/src/main/java/capston/capston_spring/service/VideoService.java:303-310 | the put succeeds iff the key's transport does not fail, and only then stores the object |
| VideoService.StripObjectUrl | spring_server/src/main/java/capston/capston_spring/service/VideoService.java:162 | removing the bucket URL from a key's URL gives the key back iff the key does not itself contain the bucket URL |
| VideoService.StripObjectUrlOfPlainKey | spring_server/src/main/java/capston/capston_spring/service/VideoService.java:162 | a key without ':' always comes back |
| VideoService.RecordedVideoKey | spring_server/src/main/java/capston/capston_spring/service/VideoService.java:130-134 | the file name is user, mode and session id; for an accuracy recording the session's mode is inserted, and the name is refused when the session is missing |
| VideoService.RecordedVideoUrlStrips | spring_server/src/main/java/capston/capston_spring/service/VideoService.java:130-135 | the URL a recording is saved under strips back to its file name |
| VideoService.EditVideo | spring_server/src/main/java/capston/capston_spring/service/VideoService.java:160-184 | an unknown video gives "not found" and changes nothing; otherwise the file overwrites the stored key and the path is rewritten to that key's URL, unless the put fails |
| VideoService.EditKeepsRecordedPath | spring_server/src/main/java/capston/capston_spring/service/VideoService.java:162-164 | re-uploading a recording keeps its URL |
| VideoService.UserFrameKeyInjective | spring_server/src/main/java/capston/capston_spring/service/VideoService.java:300 | distinct frames of one session get distinct keys |
| VideoService.UserFrameUrlStrips | spring_server/src/main/java/capston/capston_spring/service/VideoService.java:300-312 | a frame's URL strips back to its key |
| VideoService.RotateImage | spring_server/src/main/java/capston/capston_spring/service/VideoService.java:343-377 | 90 and 270 swap width and height, 180 keeps them, any other angle returns the image unchanged |
| VideoService.CorrectedDimensions | spring_server/src/main/java/capston/capston_spring/service/VideoService.java:277-280 | a decoded frame keeps its dimensions unless the rotation is 90 or 270, which swaps them |
| VideoService.SeqMax | spring_server/src/main/java/capston/capston_spring/service/VideoService.java:275 | the largest requested index: an element that bounds all others |
| VideoService.ExtractionOutcomeAgrees | spring_server/src/main/java/capston/capston_spring/service/VideoService.java:249-292 | every outcome of the extraction is the one its reference definition gives |
| VideoService.KeptFramesContents | spring_server/src/main/java/capston/capston_spring/service/VideoService.java:275-284 | the result holds exactly the requested indices the decoder reaches, each mapped to the image converted from the frame at that position, rotated; every conversion is taken to give a fresh image |
| VideoService.DuplicateTargetsCollapse | spring_server/src/main/java/capston/capston_spring/service/VideoService.java:251 | requesting an index twice changes nothing |
| VideoService.ExtractMultipleFramesFromVideo | spring_server/src/main/java/capston/capston_spring/service/VideoService.java:249-292 | an empty request, an unopenable video, a bad rotation tag and an index at or past the reported length fail before decoding; otherwise the forward decode stops after the largest index or at the stream's end, and the result agrees with the reference definition, each conversion taken to give a fresh image |
| VideoService.UploadImageToS3 | spring_server/src/main/java/capston/capston_spring/service/VideoService.java:295-313 | the image is stored under user_frames/{user}/{session}_{frame}.jpg and that key's URL is answered, unless the put fails |
| VideoService.TotalFrameCount | spring_server/src/main/java/capston/capston_spring/service/VideoService.java:379-394 | the count is the reported length of a stored, openable video; anything else fails |
| VideoService.GetTotalFrameCount | spring_server/src/main/java/capston/capston_spring/service/VideoService.java:379-394 | the method reads the count of the stored object |
| VideoService.FrameUrlsStrip | spring_server/src/main/java/capston/capston_spring/service/VideoService.java:329-331 | each uploaded frame's URL strips back to its key |
| VideoService.ExtractAndUploadMultipleFrames | spring_server/src/main/java/capston/capston_spring/service/VideoService.java:316-341 | a failed extraction changes nothing; otherwise it succeeds iff no frame's put fails, stores every frame under its key and answers their URLs, and after a failure each frame key holds either its old object or its new frame while no other key changes |
| PracticeSessionService.SectionWindow | spring_server/java/service/PracticeSessionService.java:32-42 | "full" and "highlight" in any case select the song's full or highlight boundaries; any other section has none |
| PracticeSessionService.SectionWindowIgnoresCase | spring_server/java/service/PracticeSessionService.java:32 | only the section's lower-case form matters |
| PracticeSessionService.SessionSpansSection | spring_server/java/service/PracticeSessionService.java:44-45 | the session's times differ by exactly the section's length in seconds |
| PracticeSessionService.StartPracticeSessionByUsername | spring_server/java/service/PracticeSessionService.java:25-55 | user, song and section are checked in that order, each with its message; a session runs from 1970-01-01T00:00 plus the section's bounds, keeps the section text verbatim as its mode, and is the only row added |
| PracticeSessionService.StartFullPracticeSessionByUsername | spring_server/java/service/PracticeSessionService.java:57-60 | a full-song session uses the full boundaries |
| PracticeSessionService.StartHighlightPracticeSessionByUsername | spring_server/java/service/PracticeSessionService.java:62-65 | a highlight session uses the highlight boundaries |
| PracticeSessionService.GetFullEndTime | spring_server/java/service/PracticeSessionService.java:114-117 | a missing song fails with "Song not found: "; otherwise the query succeeds |
| PracticeSessionService.GetHighlightRange | spring_server/java/service/PracticeSessionService.java:120-123 | a missing song fails; otherwise the answer has two entries |
| PracticeSessionService.QueriesAgreeWithSections | spring_server/java/service/PracticeSessionService.java:114-123 | the queried boundaries are the ones the practice sessions are built from |
| SessionResponse.FormatDuration | dto/AccuracySessionResponse.java:56-61 | a duration exists iff both times do |
| SessionResponse.DurationParsesBack | dto/AccuracySessionResponse.java:60 | the duration is "00:00:" followed by at least two digits that parse back to the whole seconds |
| SessionResponse.DurationDoesNotRollOver | dto/AccuracySessionResponse.java:60 | 60 to 99 seconds keep "00:00:" and show the seconds' own two digits (75 seconds read "00:00:75"): seconds are never carried into minutes |
| SessionResponse.LongDurationIsWider | dto/AccuracySessionResponse.java:60 | 100 seconds or more make the text longer than eight characters |
| SessionResponse.FromEntity | dto/AccuracySessionResponse.java:52-75 | the fields are copied; a full-mode session (ignoring case) hides both times; the duration is always computed from the stored times |
| SessionResponse.FullModeHidesTimesOnly | dto/AccuracySessionResponse.java:70-72 | a full-mode session with both times hides them yet still reports a duration |
| SessionResponse.ZeroLengthSession | dto/AccuracySessionResponse.java:58-60 | equal start and end read "00:00:00" |
| PoseEvalServer.RefPosePathInjective | flask_server/flask_pose_eval.py:24 | distinct songs read distinct reference files |
| PoseEvalServer.ConvertFrameKeysSucceeds | flask_server/flask_pose_eval.py:28 | the key conversion succeeds iff every key is an integer's text |
| PoseEvalServer.ConvertFrameKeysLastWins | flask_server/flask_pose_eval.py:28 | a converted frame number holds the value of the last key that denotes it |
| PoseEvalServer.ConvertFrameKeysOnlyFromKeys | flask_server/flask_pose_eval.py:28 | every converted frame number comes from some key |
| PoseEvalServer.CachedSongIgnoresFiles | flask_server/flask_pose_eval.py:22-37 | a cached song is never reread: the files play no part and the cache stays the same |
| PoseEvalServer.CacheOnlyGains | flask_server/flask_pose_eval.py:23-29 | a lookup adds at most its own song to the cache and leaves the other entries alone |
| PoseEvalServer.LoadFailureCachesNothing | flask_server/flask_pose_eval.py:25-35 | a missing, non-JSON or malformed file caches nothing; a missing or non-JSON file gives no pose |
| PoseEvalServer.LoadThenHit | flask_server/flask_pose_eval.py:29-37 | once a song's file is loaded, later lookups read the cached map, whatever the files then hold |
| PoseEvalServer.ScoreTag | flask_server/flask_pose_eval.py:107-116 | each tag exactly on its band: ≥90 Perfect, [80,90) Good, [75,80) Normal, [60,75) Bad, below 60 Worst |
| PoseEvalServer.ScoreTagMonotone | flask_server/flask_pose_eval.py:107-116 | a higher score never earns a worse tag |
| PoseEvalServer.DequeAppendKeepsNewest | flask_server/flask_pose_eval.py:81-86 | a two-slot deque grows to at most two, keeps the new pose last and the previous one just ahead |
| PoseEvalServer.DequeHoldsTwoMostRecent | flask_server/flask_pose_eval.py:81-86 | after two appends a deque holds exactly those two poses, older first |
| PoseEvalServer.EnqueueInLockstep | flask_server/flask_pose_eval.py:80-86 | appending to a session's two queues together keeps both tables on the same sessions with equal lengths of at most two |
| PoseEvalServer.FirstFrameScoresSingle | flask_server/flask_pose_eval.py:80-97 | a session's first scored frame is compared on its own |
| PoseEvalServer.LaterFrameScoresDouble | flask_server/flask_pose_eval.py:92-95 | every later frame is compared as now against the session's previous pose as prev, for user and reference alike |
| PoseEvalServer.ScoreReply | flask_server/flask_pose_eval.py:98-122 | a raised comparison is a 500 "Pose comparison failed"; a score is returned with its tag and frame index |
| PoseEvalServer.PoseServer.GetRefPoseFromDisk | flask_server/flask_pose_eval.py:22-37 | the answer and the new cache are those of the reference lookup |
| PoseEvalServer.PoseServer.ScoreDetectedPose | flask_server/flask_pose_eval.py:72-122 | a crash in the lookup is a 500, a missing pose a 400 naming the frame, and neither touches the queues; a found pose is appended to both of the session's queues before the comparison chosen by their lengths |
| PoseEvalServer.PoseServer.PoseEval | flask_server/flask_pose_eval.py:42-122 | a bad frame number, missing parameters, an empty or undecodable image and an undetected pose are answered before the reference lookup and leave the queues alone; a detected pose goes through the lookup and the queues |
| PoseEvalServer.PoseServer.CleanMemory | flask_server/flask_pose_eval.py:127-134 | the detector is closed and every session's queues are emptied; the reference cache is kept |
| EndToEnd.ToFlaskReply | flask_server/flask_pose_eval.py:50-122 | a scored reply is a 200 with a body; an error keeps its status and has a JSON body iff it was not an uncaught exception |
| EndToEnd.ScoredFrameIsCountedByScore | spring_server/java/service/AccuracySessionService.java:171-183 | a scored reply is stored with the scorer's score, and its tag is counted in the tier its score falls in, with the no-pose "WORST" as a miss |
| EndToEnd.ErrorRepliesAreRefused | spring_server/java/service/AccuracySessionService.java:163 | every scorer error reaches the accuracy service as an HTTP error with the scorer's status |
| EndToEnd.NewSessionReportsZeroDuration | spring_server/java/service/AccuracySessionService.java:222-223 | a newly created session, whose start and end are one instant, reports "00:00:00" |
| Strings.IntToStringRoundTrip | spring_server/src/main/java/capston/capston_spring/service/VideoService.java:300 | a number's decimal text parses back to it |
| Strings.IntToStringInjective | spring_server/src/main/java/capston/capston_spring/service/VideoService.java:300 | distinct numbers have distinct decimal texts |
| Strings.FormatZeroPaddedRoundTrip | dto/AccuracySessionResponse.java:60 | "%0Nd" text parses back to its number |
| Strings.FormatZeroPaddedLength | dto/AccuracySessionResponse.java:60 | "%0Nd" text is as long as the number's own text or N, whichever is more |
| Strings.EqualsIgnoreCaseIsLowerEquality | spring_server/java/service/PracticeSessionService.java:32 | two strings are equal ignoring case iff their lower-case forms are equal |
| Strings.JoinSplit | spring_server/java/service/AccuracySessionService.java:286 | joining the pieces of a split gives the text back |
| Strings.SplitJoin | spring_server/java/service/AccuracySessionService.java:286 | splitting a join of pieces without the separator gives the pieces back |
| Strings.RemoveAllFixedIff | spring_server/src/main/java/capston/capston_spring/service/VideoService.java:162 | removing a pattern leaves a text unchanged iff the pattern does not occur in it |
| Strings.RemoveAllShrinks | spring_server/src/main/java/capston/capston_spring/service/VideoService.java:162 | removing a pattern never lengthens a text |

## Left out

- The HTTP controllers, which turn request parameters into the service calls and multiply seconds by 30 to get frame indices, are not part of this model.
- OpenAiService is not part of this model. The vision model's answer or failure for each frame is a parameter.
- The pose comparisons in `pose.py` use floating-point trigonometry over detector landmarks. They are opaque function parameters, and a raised comparison is a `None` result. Landmark detection and image decoding are likewise a parameter per request.
- Numbers are exact. Java `double` rounding of the percentage and Python float scores are not modelled.
- Case folding is ASCII only. Java's `equalsIgnoreCase` and `toLowerCase` on other letters are not modelled. `toLowerCase` without a locale is taken to run under a root or English default locale. Under a Turkish locale `'I'` would become a dotless `'ı'`, so "HIGHLIGHT" would not be recognised as a section.
- JavaParseInt: accepts an optional sign and ASCII digits within the 32-bit range. It does not model the non-ASCII Unicode digits that `Integer.parseInt` also accepts.
- Integer counters and products are unbounded. Java `int` overflow in `4 * perfect`, `3 * totalFrames` and `sec * 30` is not modelled. It would need more than 500 million frames.
- Each frame the converter turns into an image is taken to give a fresh image. The source shares one `Java2DFrameConverter` and one grabber across calls, and with rotation 0 it stores the converter's image directly in the result map. If that library reuses its image buffer or its frame between calls, every unrotated map value would alias the last converted frame. The model does not capture that aliasing.
- PythonInt: accepts an optional sign and ASCII digits with surrounding whitespace. It does not model underscores or non-ASCII digits, which Python `int()` also accepts.
- Frame decoding, JPEG encoding and pixel rotation are not modelled. A frame carries its dimensions and an opaque pixel sequence, and an image records the turn applied to it.
- A stream that fails part-way through decoding is not modelled. The decoder yields a finite sequence of frames.
- An `ImageIO` encoding failure is merged with the upload failure for that key.
- The order of a `HashSet` is not modelled. When several requested indices are out of range, the model reports one of them, without fixing which.
- `saveRecordedVideo` is modelled only up to its file name. Entity conversion, thumbnail extraction and the repository save are not modelled.
- `saveSession` is not modelled: the average over all stored scores, and the Flask `/save` call it makes.
- `getByUsername`, `getBySongAndUsername`, `getSessionById`, `getVideoPathsBySongTitle` and the other repository queries are not modelled. The top-5 low-score query is a given sequence; its order among equal scores is unspecified.
- The `Mono.zip` fan-out runs the per-frame oracle calls concurrently. The model runs them in query order with a single completion write after them. Because each frame writes only its own row, that order does not change the outcome (AccuracySessionService.SavedRowsContents).
- Timestamps are an opaque `Formatted` value. `createdAt` is assigned by the database and is a field of the session here.
- A null mode or section is not modelled; modes and sections are strings. In the source, a null mode passed to `createAccuracySession` fails both `equalsIgnoreCase` tests and raises `IllegalArgumentException("Invalid accuracy mode: null")` (AccuracySessionService.java:211-213). A null section raises a `NullPointerException` at `section.toLowerCase()` (PracticeSessionService.java:32), and a stored null mode raises one at `mode.equalsIgnoreCase("full")` when the response is built (AccuracySessionResponse.java:70).
- The percentage can exceed 100, because a Perfect frame weighs 4 against a maximum of 3 per frame. The model keeps this, as the grading thresholds are written against it (AccuracySessionService.PercentageRange).
- Logging, the `/health` endpoint and the garbage collector's count, which is a parameter of `/save`, are not modelled.
