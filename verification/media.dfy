/** The media host as the models see it: uploads return a secure URL or
    null, deletes never fail.  The network is not modelled; what the host
    answers to an upload travels with the uploaded file. */
module Media {
  import opened Outcomes
  import PublicId
  import Text

  /** `EnumCloudinaryFileTypes`: the resource type of a stored object. */
  datatype MediaKind = Image | Video

  /** A secure URL, already parsed: only its pathname matters here. */
  datatype Url = Url(origin: string, pathname: string)

  /** A file attached to a request, together with the host's reply when it
      is uploaded: its secure URL, or nothing when the upload errors or the
      host returns no URL. */
  datatype File = File(tempFilePath: string, hostReply: Option<Url>)

  /** The request fields that carry files: `image`, `video`, `avatar` and
      `step_image_<sequence number>`. */
  datatype FileKey = ImageField | VideoField | AvatarField | StepImageField(sequence_number: int)

  /** `req.files`: absent when the request carries no file at all. */
  type Files = Option<map<FileKey, File>>

  /** `req.files?.[key]` */
  function FileAt(files: Files, key: FileKey): (f: Option<File>)
  {
    if files.Some? && key in files.value then Some(files.value[key]) else None
  }

  /** The message thrown when an upload of a required file gives no URL. */
  const UploadFailure := "Error uploading files to Cloudinary"

  /** What the models ask of the media host, in order. */
  datatype MediaRequest =
    | UploadRequest(file: File, kind: MediaKind)
    | DestroyRequest(publicId: string, kind: MediaKind)

  /** The reply to one `uploadFilesToCloudinary` call and the requests it sent. */
  datatype Uploaded = Uploaded(url: Option<Url>, requests: seq<MediaRequest>)

  /** `uploadFilesToCloudinary(file, kind)`: no file gives null without
      contacting the host; otherwise one upload is sent and its reply, a URL
      or null (a failure is caught and turned into null), is returned. */
  function Upload(file: Option<File>, kind: MediaKind): (u: Uploaded)
    ensures file.None? ==> u.url.None? && u.requests == []
    ensures file.Some? ==> u.url == file.value.hostReply && u.requests == [UploadRequest(file.value, kind)]
  {
    match file
    case None => Uploaded(None, [])
    case Some(f) => Uploaded(f.hostReply, [UploadRequest(f, kind)])
  }

  /** `deleteFileFromCloudinary(url, kind)`: nothing for a null URL; a destroy
      of the URL's public id otherwise.  A URL whose public id cannot be
      extracted is logged and dropped: the function never throws. */
  function Delete(url: Option<Url>, kind: MediaKind): (requests: seq<MediaRequest>)
    ensures |requests| <= 1
    ensures url.None? ==> requests == []
    ensures forall q :: q in requests ==> q.DestroyRequest? && q.kind == kind
    ensures url.Some? && PublicId.Extract(url.value.pathname).Ok? ==>
              requests == [DestroyRequest(PublicId.Extract(url.value.pathname).value, kind)]
    ensures url.Some? && PublicId.Extract(url.value.pathname).Fail? ==> requests == []
  {
    if url.None? then []
    else
      match PublicId.Extract(url.value.pathname)
      case Ok(id) => [DestroyRequest(id, kind)]
      case Fail(_) => []
  }

  /** An entry of a rollback list: a URL (possibly null) to delete on failure. */
  datatype Pending = Pending(url: Option<Url>, kind: MediaKind)

  /** The requests sent by deleting every entry of a rollback list, in order. */
  function Cleanup(pending: seq<Pending>): (requests: seq<MediaRequest>)
    decreases |pending|
  {
    if |pending| == 0 then []
    else Delete(pending[0].url, pending[0].kind) + Cleanup(pending[1..])
  }

  /** Cleaning up only destroys: one destroy at most per entry, of that
      entry's media kind, and none for an empty list. */
  lemma {:induction false} CleanupOnlyDestroys(pending: seq<Pending>)
    ensures |Cleanup(pending)| <= |pending|
    ensures forall q :: q in Cleanup(pending) ==> q.DestroyRequest?
    ensures forall q :: q in Cleanup(pending) ==> exists p :: p in pending && q.kind == p.kind
    decreases |pending|
  {
    if |pending| > 0 {
      CleanupOnlyDestroys(pending[1..]);
      forall q | q in Cleanup(pending) ensures exists p :: p in pending && q.kind == p.kind {
        if q in Delete(pending[0].url, pending[0].kind) {
          assert pending[0] in pending;
        } else {
          var p :| p in pending[1..] && q.kind == p.kind;
          assert p in pending;
        }
      }
    }
  }

  /** Cleaning up a concatenation cleans up each part in turn. */
  lemma {:induction false} CleanupAppend(a: seq<Pending>, b: seq<Pending>)
    ensures Cleanup(a + b) == Cleanup(a) + Cleanup(b)
    decreases |a|
  {
    if |a| == 0 {
      assert a + b == b;
    } else {
      assert (a + b)[1..] == a[1..] + b;
      CleanupAppend(a[1..], b);
    }
  }

  /** Cleaning up a list that starts with two entries deletes those two,
      then cleans up the rest. */
  lemma CleanupPairThen(a: Pending, b: Pending, rest: seq<Pending>)
    ensures Cleanup([a, b] + rest) == Delete(a.url, a.kind) + Delete(b.url, b.kind) + Cleanup(rest)
  {
    CleanupAppend([a, b], rest);
    CleanupPair(a, b);
  }

  /** Deleting a URL the host handed out for an upload destroys the object
      stored under that upload's public id. */
  lemma DeleteOfSecureUrl(origin: string, cloud: string, kindName: string, version: string,
                          folders: seq<string>, name: string, ext: string, kind: MediaKind)
    requires PublicId.Segment(cloud) && PublicId.Segment(kindName) && PublicId.Segment(version)
    requires PublicId.Segments(folders)
    requires '/' !in name && '.' !in name && '/' !in ext
    ensures Delete(Some(Url(origin, PublicId.SecurePath(cloud, kindName, version, folders, name, ext))), kind)
            == [DestroyRequest(Text.Join(folders + [name], "/"), kind)]
  {
    PublicId.ExtractInvertsSecurePath(cloud, kindName, version, folders, name, ext);
  }

  /** Cleaning up two entries deletes the first, then the second. */
  lemma CleanupPair(a: Pending, b: Pending)
    ensures Cleanup([a, b]) == Delete(a.url, a.kind) + Delete(b.url, b.kind)
  {
    assert [a, b][1..] == [b];
    assert [b][1..] == [];
    assert Cleanup([b]) == Delete(b.url, b.kind) + Cleanup([]);
  }
}
