/**
 * The image upload handler (`POST /resource-images`) and the file serving
 * route (`GET /resource-images/:key`), src/main.ts:94-136.
 *
 * The clock, the random fraction, the multipart parser and the image
 * library are outside the model: the millisecond timestamp and the ten
 * fraction digits are parameters, the uploaded file is present or absent,
 * and whether the image library decoded, resized and wrote the file is a
 * boolean outcome. Paths are strings; nothing touches a file system.
 */
module Uploads {
  import opened Common
  import opened Text

  const StoragePath: string := "./storage/"
  const ResourceImagesDirName: string := "resource-images"
  const ImageSuffix: string := ".jpg"
  /** The content type set before streaming a stored file. */
  const ServedContentType: string := "image/jpg"
  const NoImageError: string := "no image"
  const ProcessingError: string := "failed to process images"

  /** The JSON body the upload handler sends. */
  datatype UploadReply =
    | UploadFailed(error: string)      // {ok: false, error}
    | UploadOk(relativeUrl: string)    // {ok: true, relativeUrl}
  {
    predicate Ok() { UploadOk? }
  }

  /** The reply together with the path handed to the image library for
      writing, if any. */
  datatype UploadOutcome = UploadOutcome(reply: UploadReply, target: Option<string>)

  /** `Date.now() + '-' + digits + ".jpg"`. */
  function FileName(timestamp: nat, digits: string): string {
    DecimalString(timestamp) + "-" + digits + ImageSuffix
  }

  /** Reads a generated file name back into its timestamp and digits; the
      inverse of FileName. */
  function ParseFileName(name: string): Option<(nat, string)> {
    var k := IndexOf(name, '-');
    if k < |name| && AllDigits(name[..k]) && |name| >= k + 1 + |ImageSuffix|
       && name[|name| - |ImageSuffix|..] == ImageSuffix
    then Some((DecimalValue(name[..k]), name[k + 1..|name| - |ImageSuffix|]))
    else None
  }

  /** A generated file name determines the timestamp and digits it was made
      from. */
  lemma FileNameRoundTrip(timestamp: nat, digits: string)
    ensures ParseFileName(FileName(timestamp, digits)) == Some((timestamp, digits))
  {
    var d := DecimalString(timestamp);
    var rest := digits + ImageSuffix;
    var name := FileName(timestamp, digits);
    assert name == d + ['-'] + rest;
    assert '-' !in d by {
      forall j | 0 <= j < |d| ensures d[j] != '-' { assert IsDigit(d[j]); }
    }
    IndexOfAfterPrefix(d, '-', rest);
    assert name[..|d|] == d;
    assert name[|name| - |ImageSuffix|..] == ImageSuffix;
    assert name[|d| + 1..|name| - |ImageSuffix|] == digits;
    DecimalRoundTrip(timestamp);
  }

  /** Distinct (timestamp, digits) pairs give distinct file names. */
  lemma FileNamesDistinct(t1: nat, d1: string, t2: nat, d2: string)
    requires (t1, d1) != (t2, d2)
    ensures FileName(t1, d1) != FileName(t2, d2)
  {
    FileNameRoundTrip(t1, d1);
    FileNameRoundTrip(t2, d2);
  }

  /** `STORAGE_PATH + RESOURCE_IMAGES_DIR_NAME + '/' + filename`: where an
      upload is written. */
  function UploadPath(filename: string): string
  {
    StoragePath + ResourceImagesDirName + "/" + filename
  }

  /** `POST /resource-images`. */
  function HandleUpload(file: Option<seq<bv8>>, timestamp: nat, digits: string, processed: bool): (u: UploadOutcome)
    ensures file.None? ==> u == UploadOutcome(UploadFailed(NoImageError), None)
    ensures file.Some? ==> u.target == Some(UploadPath(FileName(timestamp, digits)))
    ensures u.reply.Ok() <==> file.Some? && processed
    ensures u.reply.Ok() ==> u.reply.relativeUrl == FileName(timestamp, digits)
    ensures file.Some? && !processed ==> u.reply == UploadFailed(ProcessingError)
  {
    match file
    case None => UploadOutcome(UploadFailed(NoImageError), None)
    case Some(_) =>
      var filename := FileName(timestamp, digits);
      var filepath := UploadPath(filename);
      if processed then UploadOutcome(UploadOk(filename), Some(filepath))
      else UploadOutcome(UploadFailed(ProcessingError), Some(filepath))
  }

  /** What `serveFile` does: the path it opens and the content type it sets. */
  datatype ServedFile = ServedFile(contentType: string, path: string)

  /** `serveFile(dir, req, res)`: the key is appended to the directory as
      given, with no check on its contents. */
  function ServeFile(dir: string, key: string): (s: ServedFile)
    ensures s.contentType == ServedContentType
    ensures |s.path| == |StoragePath| + |dir| + 1 + |key|
    ensures s.path[..|StoragePath|] == StoragePath && s.path[|s.path| - |key|..] == key
    ensures s.path[|StoragePath|..|StoragePath| + |dir| + 1] == dir + "/"
  {
    var path := StoragePath + dir + "/" + key;
    assert path[|path| - |key|..] == key;
    assert path[|StoragePath|..|StoragePath| + |dir| + 1] == dir + "/";
    ServedFile(ServedContentType, path)
  }

  /** `GET /resource-images/:key`. */
  function ServeResourceImage(key: string): ServedFile {
    ServeFile(ResourceImagesDirName, key)
  }

  /** The file an upload writes is the file the serving route opens for the
      `relativeUrl` the upload returned. */
  lemma UploadThenServe(file: Option<seq<bv8>>, timestamp: nat, digits: string, processed: bool)
    requires HandleUpload(file, timestamp, digits, processed).reply.Ok()
    ensures var u := HandleUpload(file, timestamp, digits, processed);
            u.target == Some(ServeResourceImage(u.reply.relativeUrl).path)
  {
  }

  /** Distinct keys are served from distinct paths. */
  lemma ServedPathsDistinct(k1: string, k2: string)
    requires k1 != k2
    ensures ServeResourceImage(k1).path != ServeResourceImage(k2).path
  {
    var p := StoragePath + ResourceImagesDirName + "/";
    assert ServeResourceImage(k1).path == p + k1 && ServeResourceImage(k2).path == p + k2;
    assert (p + k1)[|p|..] == k1 && (p + k2)[|p|..] == k2;
  }

  /** Two successful uploads made with distinct timestamps or digits write
      to distinct files and return distinct keys. */
  lemma UploadsDoNotCollide(f1: Option<seq<bv8>>, t1: nat, d1: string, f2: Option<seq<bv8>>, t2: nat, d2: string)
    requires HandleUpload(f1, t1, d1, true).reply.Ok() && HandleUpload(f2, t2, d2, true).reply.Ok()
    requires (t1, d1) != (t2, d2)
    ensures HandleUpload(f1, t1, d1, true).reply.relativeUrl != HandleUpload(f2, t2, d2, true).reply.relativeUrl
    ensures HandleUpload(f1, t1, d1, true).target != HandleUpload(f2, t2, d2, true).target
  {
    FileNamesDistinct(t1, d1, t2, d2);
    ServedPathsDistinct(FileName(t1, d1), FileName(t2, d2));
  }
}
