/** Recovering the storage key ("public id") of a media-host object from
    the path of its secure URL, so that the object can be destroyed.  A
    secure URL path has the shape
      /<cloud>/<resource type>/upload/v<version>/<folders>/<name>.<ext>
    and the public id is `<folders>/<name>`. */
module PublicId {
  import opened Outcomes
  import opened Text

  /** The one error every internal failure is turned into. */
  const ExtractFailure := "Unable to extract public ID from Cloudinary URL"

  /** A file name without its extension: the text before its first dot. */
  function Stem(file: string): string
  {
    Split(file, '.')[0]
  }

  /** `extractPublicIdFromCloudinarySecureUrl`, applied to the URL's
      pathname, step by step as written: split on '/', drop the empty
      segments, rebuild "<segments after the first two>/<stem>", split that
      again, find "upload" and keep what follows it and the version. */
  function Extract(pathname: string): (r: Result<string>)
    ensures r.Fail? ==> r.error == Raise(ExtractFailure)
  {
    var segments := NonEmpty(Split(pathname, '/'));
    if |segments| < 2 then Fail(Raise(ExtractFailure))
    else AfterUpload(Split(Rebuilt(segments), '/'))
  }

  /** The parts after the first "upload" and the version part that follows
      it, joined by '/'; a failure when there is no such part. */
  function AfterUpload(parts: seq<string>): (r: Result<string>)
    ensures r.Fail? ==> r.error == Raise(ExtractFailure)
  {
    var uploadIndex := IndexOf(parts, "upload");
    if uploadIndex == -1 || |parts| <= uploadIndex + 2 then Fail(Raise(ExtractFailure))
    else Ok(Join(parts[uploadIndex + 2..], "/"))
  }

  /** The intermediate string the extraction builds: the folder path (the
      segments between the first two and the last) and the file's stem,
      joined by '/' unless the folder path is empty. */
  function Rebuilt(segments: seq<string>): string
    requires |segments| >= 2
  {
    var stem := Stem(segments[|segments| - 1]);
    var folderPath := Join(Folders(segments), "/");
    if folderPath != "" then folderPath + "/" + stem else stem
  }

  /** `pathSegments.slice(2, -1)`: the segments between the first two and the
      last one (none when there are only two). */
  function Folders(segments: seq<string>): (r: seq<string>)
    requires |segments| >= 2
  {
    if |segments| == 2 then [] else segments[2..|segments| - 1]
  }

  /** The segments the "upload" marker is looked for in: everything after the
      first two segments, with the file name cut down to its stem. */
  function Searched(segments: seq<string>): seq<string>
    requires |segments| >= 2
  {
    Folders(segments) + [Stem(segments[|segments| - 1])]
  }

  /** The public id described directly on the non-empty path segments: what
      follows the first "upload" among the searched segments and the version
      segment after it. */
  function FromSegments(segments: seq<string>): (r: Result<string>)
  {
    if |segments| < 2 then Fail(Raise(ExtractFailure))
    else AfterUpload(Searched(segments))
  }

  /** The extraction as written, with its join and second split, is exactly
      the segment-level description. */
  lemma ExtractBySegments(pathname: string)
    ensures Extract(pathname) == FromSegments(NonEmpty(Split(pathname, '/')))
  {
    var segments := NonEmpty(Split(pathname, '/'));
    if |segments| >= 2 {
      assert Split(Rebuilt(segments), '/') == Searched(segments) by {
        PathSegments(pathname);
        RebuiltSplits(segments);
      }
    }
  }

  /** The non-empty segments of a path are path segments. */
  lemma PathSegments(pathname: string)
    ensures forall i :: 0 <= i < |NonEmpty(Split(pathname, '/'))| ==> Segment(NonEmpty(Split(pathname, '/'))[i])
  {
    var parts := Split(pathname, '/');
    var segments := NonEmpty(parts);
    forall i | 0 <= i < |segments| ensures Segment(segments[i]) {
      var k :| 0 <= k < |parts| && parts[k] == segments[i];
    }
  }

  /** The rebuilt public id splits back into the searched segments. */
  lemma RebuiltSplits(segments: seq<string>)
    requires |segments| >= 2
    requires forall i :: 0 <= i < |segments| ==> Segment(segments[i])
    ensures Split(Rebuilt(segments), '/') == Searched(segments)
  {
    var file := segments[|segments| - 1];
    var stem := Stem(file);
    var folders := Folders(segments);
    assert Segment(file);
    assert '/' !in stem by {
      assert stem == file[..Find(file, '.')];
      forall i | 0 <= i < |stem| ensures stem[i] != '/' {
        assert stem[i] == file[i];
      }
    }
    forall i | 0 <= i < |folders| ensures Segment(folders[i]) {
      assert folders[i] == segments[i + 2];
    }
    if |folders| == 0 {
      assert Join(folders, "/") == "";
      assert Rebuilt(segments) == Join([stem], "/");
      assert Searched(segments) == [stem];
    } else {
      NonEmptyJoin(folders, "/");
      JoinSnoc(folders, stem, "/");
      assert Rebuilt(segments) == Join(folders + [stem], "/");
    }
    SplitJoin(Searched(segments), '/');
  }

  /** Joining non-empty pieces never gives the empty string. */
  lemma NonEmptyJoin(parts: seq<string>, sep: string)
    requires |parts| > 0 && |parts[0]| > 0
    ensures Join(parts, sep) != ""
  {
    if |parts| > 1 {
      assert Join(parts, sep) == parts[0] + sep + Join(parts[1..], sep);
    }
  }

  lemma {:induction false} JoinSnoc(parts: seq<string>, last: string, sep: string)
    requires |parts| > 0
    ensures Join(parts + [last], sep) == Join(parts, sep) + sep + last
    decreases |parts|
  {
    if |parts| > 1 {
      assert (parts + [last])[1..] == parts[1..] + [last];
      JoinSnoc(parts[1..], last, sep);
    } else {
      assert (parts + [last])[1..] == [last];
    }
  }

  /** The path of a secure URL the media host hands back for an upload. */
  function SecurePath(cloud: string, kind: string, version: string,
                      folders: seq<string>, name: string, ext: string): string
  {
    "/" + Join([cloud, kind] + ["upload", version] + folders + [name + "." + ext], "/")
  }

  /** A segment of a URL path: not empty, without a '/'. */
  predicate Segment(s: string)
  {
    |s| > 0 && '/' !in s
  }

  /** Every element of `xs` is a path segment. */
  predicate Segments(xs: seq<string>)
    decreases |xs|
  {
    |xs| == 0 || (Segment(xs[0]) && Segments(xs[1..]))
  }

  lemma {:induction false} SegmentsAt(xs: seq<string>)
    requires Segments(xs)
    ensures forall i :: 0 <= i < |xs| ==> Segment(xs[i])
    decreases |xs|
  {
    if |xs| > 0 {
      SegmentsAt(xs[1..]);
      assert forall i :: 1 <= i < |xs| ==> xs[i] == xs[1..][i - 1];
    }
  }

  /** Extraction inverts the host's URL construction: from the secure URL of
      an object stored as `<folders>/<name>` it gives back `<folders>/<name>`. */
  lemma ExtractInvertsSecurePath(cloud: string, kind: string, version: string,
                                 folders: seq<string>, name: string, ext: string)
    requires Segment(cloud) && Segment(kind) && Segment(version)
    requires Segments(folders)
    requires '/' !in name && '.' !in name && '/' !in ext
    ensures Extract(SecurePath(cloud, kind, version, folders, name, ext))
            == Ok(Join(folders + [name], "/"))
  {
    var path := SecurePath(cloud, kind, version, folders, name, ext);
    var xs := SecureSegments(cloud, kind, version, folders, name, ext);
    SecurePathSegments(cloud, kind, version, folders, name, ext);
    SecureSearched(cloud, kind, version, folders, name, ext);
    var searched := ["upload", version] + (folders + [name]);
    assert IndexOf(searched, "upload") == 0;
    assert searched[2..] == folders + [name];
    ExtractBySegments(path);
  }

  /** The segments of a secure URL path. */
  function SecureSegments(cloud: string, kind: string, version: string,
                          folders: seq<string>, name: string, ext: string): seq<string>
  {
    [cloud, kind] + ["upload", version] + folders + [name + "." + ext]
  }

  lemma SecurePathSegments(cloud: string, kind: string, version: string,
                           folders: seq<string>, name: string, ext: string)
    requires Segment(cloud) && Segment(kind) && Segment(version)
    requires Segments(folders)
    requires '/' !in name && '/' !in ext
    ensures NonEmpty(Split(SecurePath(cloud, kind, version, folders, name, ext), '/'))
            == SecureSegments(cloud, kind, version, folders, name, ext)
  {
    var file := name + "." + ext;
    var xs := SecureSegments(cloud, kind, version, folders, name, ext);
    var path := SecurePath(cloud, kind, version, folders, name, ext);
    assert '/' !in file by {
      forall i | 0 <= i < |file| ensures file[i] != '/' {
        if i < |name| { assert file[i] == name[i]; }
        else if i > |name| { assert file[i] == ext[i - |name| - 1]; }
      }
    }
    SegmentsAt(folders);
    forall i | 0 <= i < |xs| ensures Segment(xs[i]) {
      if 4 <= i < |xs| - 1 { assert xs[i] == folders[i - 4]; }
    }
    assert path == Join([""] + xs, "/") by {
      assert ([""] + xs)[1..] == xs;
    }
    SplitJoin([""] + xs, '/');
    NonEmptyAfterEmpty(xs);
  }

  lemma SecureSearched(cloud: string, kind: string, version: string,
                       folders: seq<string>, name: string, ext: string)
    requires '.' !in name
    ensures Searched(SecureSegments(cloud, kind, version, folders, name, ext))
            == ["upload", version] + (folders + [name])
  {
    var file := name + "." + ext;
    var xs := SecureSegments(cloud, kind, version, folders, name, ext);
    assert Stem(file) == name by {
      FindAfterFree(name, '.', ext);
    }
    assert Folders(xs) == ["upload", version] + folders by {
      Middle([cloud, kind], ["upload", version], folders, [file]);
    }
  }

  lemma Middle<T>(a: seq<T>, b: seq<T>, c: seq<T>, d: seq<T>)
    ensures (a + b + c + d)[|a|..|a| + |b| + |c|] == b + c
  {
  }

  /** Filtering a list of non-empty segments behind one empty one. */
  lemma NonEmptyAfterEmpty(xs: seq<string>)
    requires forall i :: 0 <= i < |xs| ==> Segment(xs[i])
    ensures NonEmpty([""] + xs) == xs
  {
    assert ([""] + xs)[1..] == xs;
    NonEmptyKeeps(xs);
  }

  lemma {:induction false} NonEmptyKeeps(xs: seq<string>)
    requires forall i :: 0 <= i < |xs| ==> Segment(xs[i])
    ensures NonEmpty(xs) == xs
    decreases |xs|
  {
    if |xs| > 0 {
      NonEmptyKeeps(xs[1..]);
      assert [xs[0]] + xs[1..] == xs;
    }
  }
}
