/**
 * What the object store holds and its get/put operations. A video object is
 * described by what the frame grabber sees in it: whether it opens, its
 * "rotate" metadata, the frame count the container reports, and the frames a
 * forward-only decode yields.
 */
module Storage {
  import opened Wrappers

  /** A decoded video frame; the pixel data is carried but never inspected. */
  datatype Frame = Frame(width: nat, height: nat, pixels: seq<int>)

  /** A raster image made from `source`, after a clockwise turn of `turned` degrees (0 if none). */
  datatype Image = Image(width: nat, height: nat, source: Frame, turned: int)

  datatype Video = Video(
    playable: bool,
    rotate: Option<string>,
    lengthInFrames: int,
    frames: seq<Frame>)

  datatype Blob = VideoFile(video: Video) | JpegFile(image: Image)

  function Lookup(objects: map<string, Blob>, key: string): Option<Blob>
  {
    if key in objects then Some(objects[key]) else None
  }

  /** One bucket. `failingKeys` are the keys whose put fails with a transport error. */
  class BlobStore {
    var objects: map<string, Blob>
    var failingKeys: set<string>

    constructor (objects: map<string, Blob>, failingKeys: set<string>)
      ensures this.objects == objects && this.failingKeys == failingKeys
    {
      this.objects := objects;
      this.failingKeys := failingKeys;
    }

    /** `getObject`: the stored object, or None for a missing key (NoSuchKeyException). */
    method GetObject(key: string) returns (b: Option<Blob>)
      ensures b == Lookup(objects, key)
    {
      b := Lookup(objects, key);
    }

    /** `putObject`: stores `blob` under `key` unless the transport fails. */
    method PutObject(key: string, blob: Blob) returns (ok: bool)
      modifies this`objects
      ensures ok <==> key !in failingKeys
      ensures objects == if ok then old(objects)[key := blob] else old(objects)
    {
      ok := key !in failingKeys;
      if ok {
        objects := objects[key := blob];
      }
    }
  }
}
