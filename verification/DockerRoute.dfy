/**
 Registry URLs. Image names may contain slashes, so a path is classified by the
 first rule that finds its separator; what precedes the separator is the name.
 */
module DockerRoute {
  import opened Text
  import opened Sequences
  import opened DockerManifest

  datatype Route =
    | Unknown
    | Version
    | Catalog
    | TagsList(name: string)
    | Manifest(name: string, reference: string)
    | Blob(name: string, reference: string)
    | UploadStart(name: string)
    | UploadSession(name: string, reference: string)

  const MOUNT: string := "/v2"
  const TAGS: string := "/tags/list"
  const BLOBS: string := "/blobs/"
  const UPLOADS: string := "/blobs/uploads"
  const UPLOADS_SLASH: string := "/blobs/uploads/"

  /** The rules for blobs, once it is known that the path is neither a tag list nor a manifest. */
  function BlobRoute(p: string): Route {
    if HasSuffix(p, UPLOADS_SLASH) then UploadStart(TrimSuffix(p, UPLOADS_SLASH))
    else if HasSuffix(p, UPLOADS) then UploadStart(TrimSuffix(p, UPLOADS))
    else if Index(p, UPLOADS_SLASH) > 0 then
      var i := Index(p, UPLOADS_SLASH);
      UploadSession(p[..i], p[i + |UPLOADS_SLASH|..])
    else if Index(p, BLOBS) > 0 then
      var i := Index(p, BLOBS);
      Blob(p[..i], p[i + |BLOBS|..])
    else Unknown
  }

  /** The rules for image paths, in order. */
  function ImageRoute(p: string): Route {
    if HasSuffix(p, TAGS) then TagsList(TrimSuffix(p, TAGS))
    else if Index(p, SEPARATOR) > 0 then
      var i := Index(p, SEPARATOR);
      Manifest(p[..i], p[i + |SEPARATOR|..])
    else BlobRoute(p)
  }

  function ParsePath(path: string): Route {
    var p := TrimPrefix(TrimPrefix(path, MOUNT), "/");
    if p == "" then Version
    else if p == "_catalog" then Catalog
    else ImageRoute(p)
  }

  // ---------------------------------------------------------------- printing

  predicate Named(r: Route) {
    !r.Unknown? && !r.Version? && !r.Catalog?
  }

  /** The path of a route below `/v2/`; an upload is started at the path with the slash. */
  function Print(r: Route): string
    requires Named(r)
  {
    match r
    case TagsList(name) => name + TAGS
    case Manifest(name, reference) => name + (SEPARATOR + reference)
    case Blob(name, reference) => name + (BLOBS + reference)
    case UploadStart(name) => name + UPLOADS_SLASH
    case UploadSession(name, reference) => name + (UPLOADS_SLASH + reference)
  }

  function Mounted(p: string): string {
    MOUNT + ("/" + p)
  }

  lemma MountedTrims(p: string)
    ensures TrimPrefix(TrimPrefix(Mounted(p), MOUNT), "/") == p
  {
    Joins(MOUNT, "/" + p);
    Joins("/", p);
  }

  /** Neither of the two fixed paths contains a separator. */
  lemma LongPathIsImage(p: string)
    requires |p| > 8
    ensures ParsePath(Mounted(p)) == ImageRoute(p)
  {
    MountedTrims(p);
  }

  lemma SplitAtIndex(p: string, sep: string, i: int)
    requires i == Index(p, sep) && i >= 0
    ensures i + |sep| <= |p| && p == p[..i] + (sep + p[i + |sep|..])
  {
    var rest := p[i..];
    SplitAt(p, i);
    SplitAt(rest, |sep|);
  }

  /**
   Whatever a path below the mount is parsed to, printing that gives the path back, but for
   a slash when an upload is started.
   */
  lemma ParsedPrintsBack(p: string)
    requires Named(ImageRoute(p))
    ensures Print(ImageRoute(p)) == p || (ImageRoute(p).UploadStart? && Print(ImageRoute(p)) == p + "/")
  {
    var r := ImageRoute(p);
    if r.TagsList? {
      SplitAt(p, |p| - |TAGS|);
    } else if r.Manifest? {
      SplitAtIndex(p, SEPARATOR, Index(p, SEPARATOR));
    } else if HasSuffix(p, UPLOADS_SLASH) {
      SplitAt(p, |p| - |UPLOADS_SLASH|);
    } else if HasSuffix(p, UPLOADS) {
      SplitAt(p, |p| - |UPLOADS|);
      assert UPLOADS_SLASH == UPLOADS + "/";
    } else if Index(p, UPLOADS_SLASH) > 0 {
      SplitAtIndex(p, UPLOADS_SLASH, Index(p, UPLOADS_SLASH));
    } else {
      SplitAtIndex(p, BLOBS, Index(p, BLOBS));
    }
  }

  // ---------------------------------------------------------------- paths that are already stripped

  lemma ShorterPathDiffers(p: string, q: string)
    requires Named(ImageRoute(p)) && |q| + 1 < |p|
    ensures ImageRoute(q) != ImageRoute(p)
  {
    if Named(ImageRoute(q)) { ParsedPrintsBack(q); }
    ParsedPrintsBack(p);
  }

  /**
   A path handed over without its mount is parsed alike exactly when it does not
   begin with `v2`: the prefix is stripped a second time otherwise.
   */
  lemma StrippedParsesAlikeIff(p: string)
    requires Named(ParsePath(Mounted(p)))
    ensures ParsePath("/" + p) == ParsePath(Mounted(p)) <==> !HasPrefix(p, "v2")
  {
    MountedTrims(p);
    Joins("/", p);
    if HasPrefix(p, "v2") {
      var q := TrimPrefix(p[2..], "/");
      SplitAt(p, 2);
      assert "/" + p == MOUNT + p[2..];
      Joins(MOUNT, p[2..]);
      ShorterPathDiffers(p, q);
    } else {
      MountedIff(p);
    }
  }

  lemma MountedIff(p: string)
    ensures HasPrefix("/" + p, MOUNT) <==> HasPrefix(p, "v2")
  {
    if |p| >= 2 {
      assert ("/" + p)[..3] == "/" + p[..2];
      assert MOUNT == "/" + "v2";
      Joins("/", p[..2]);
      Joins("/", "v2");
    }
  }

  /**
   The server strips the mount before the handler parses the path. What is printed then
   parses back exactly when it does below the mount and does not begin with `v2`.
   */
  lemma StrippedRoundTripIff(r: Route)
    requires Named(r)
    ensures ParsePath("/" + Print(r)) == r <==> ParsePath(Mounted(Print(r))) == r && !HasPrefix(Print(r), "v2")
  {
    var p := Print(r);
    MountedTrims(p);
    MountedIff(p);
    Joins("/", p);
    if HasPrefix(p, "v2") { StrippedTwice(r); }
  }

  /** What begins with `v2` is parsed without that, so as something shorter. */
  lemma StrippedTwice(r: Route)
    requires Named(r) && HasPrefix(Print(r), "v2")
    ensures ParsePath("/" + Print(r)) != r
  {
    var rest := Print(r)[2..];
    SplitAt(Print(r), 2);
    assert "/" + ("v2" + rest) == MOUNT + rest;
    MountRemoved(rest);
    if Named(ImageRoute(TrimPrefix(rest, "/"))) { ParsedPrintsBack(TrimPrefix(rest, "/")); }
  }

  lemma MountRemoved(rest: string)
    ensures Named(ParsePath(MOUNT + rest)) ==> ParsePath(MOUNT + rest) == ImageRoute(TrimPrefix(rest, "/"))
  {
    Joins(MOUNT, rest);
  }

  function Renamed(r: Route, name: string): Route
    requires Named(r)
  {
    match r
    case TagsList(_) => TagsList(name)
    case Manifest(_, reference) => Manifest(name, reference)
    case Blob(_, reference) => Blob(name, reference)
    case UploadStart(_) => UploadStart(name)
    case UploadSession(_, reference) => UploadSession(name, reference)
  }

  lemma PrintRenamed(r: Route, prefix: string)
    requires Named(r)
    ensures Print(Renamed(r, prefix + r.name)) == prefix + Print(r)
  {
  }

  lemma MountedTwice(p: string)
    requires p != "" && p[0] != '/'
    ensures ParsePath(MOUNT + p) == ParsePath(Mounted(p))
  {
    Joins(MOUNT, p);
    MountedTrims(p);
    PrefixChar(p, "/", 0);
  }

  lemma StartsLikeName(r: Route)
    requires Named(r) && r.name != ""
    ensures Print(r) != "" && Print(r)[0] == r.name[0]
  {
  }

  /** A name that begins with `v2` loses it: the path is parsed as that of the rest of the name. */
  lemma V2IsDropped(r: Route)
    requires Named(r) && r.name != "" && r.name[0] != '/'
    ensures ParsePath("/" + Print(Renamed(r, "v2" + r.name))) == ParsePath(Mounted(Print(r)))
  {
    PrintRenamed(r, "v2");
    assert "/" + ("v2" + Print(r)) == MOUNT + Print(r);
    StartsLikeName(r);
    MountedTwice(Print(r));
  }

  // ---------------------------------------------------------------- round trips

  lemma IndexAfterName(name: string, sep: string, rest: string)
    ensures Index(name + (sep + rest), sep) == |name| <==> FirstAfter(name, sep)
    ensures 0 <= Index(name + (sep + rest), sep) <= |name|
  {
    var p, head := name + (sep + rest), name + sep;
    assert p == head + rest;
    assert OccursAt(head, sep, |name|);
    OccursInPrefix(head, rest, sep, |name|);
    OccursInPrefix(head, rest, sep, Index(p, sep));
    OccursInPrefix(head, rest, sep, Index(head, sep));
  }

  /** A suffix no longer than the second part is a suffix of that part. */
  lemma SuffixOfTail(a: string, b: string, suffix: string)
    requires |suffix| <= |b|
    ensures HasSuffix(a + b, suffix) <==> HasSuffix(b, suffix)
  {
    assert (a + b)[|a + b| - |suffix|..] == b[|b| - |suffix|..];
  }

  /** A tag list always round-trips, whatever the name. */
  lemma TagsListRoundTrips(name: string)
    ensures ParsePath(Mounted(Print(TagsList(name)))) == TagsList(name)
    ensures ParsePath("/" + Print(TagsList(name))) == TagsList(name) <==> !HasPrefix(name + TAGS, "v2")
  {
    Joins(name, TAGS);
    LongPathIsImage(name + TAGS);
    StrippedRoundTripIff(TagsList(name));
  }

  /**
   Cutting a printed path at the first separator gives name and reference back exactly when
   that is the printed one.
   */
  lemma CutAtFirst(name: string, sep: string, rest: string, p: string, i: int)
    requires sep != "" && p == name + (sep + rest) && i == Index(p, sep)
    ensures 0 <= i <= |name| && i + |sep| <= |p|
    ensures p[..i] == name && p[i + |sep|..] == rest <==> FirstAfter(name, sep)
  {
    IndexAfterName(name, sep, rest);
    Joins(name, sep + rest);
    Joins(sep, rest);
  }

  lemma IsManifest(p: string, name: string, reference: string)
    ensures ImageRoute(p) == Manifest(name, reference) <==>
            var i := Index(p, SEPARATOR);
            !HasSuffix(p, TAGS) && i > 0 && p[..i] == name && p[i + |SEPARATOR|..] == reference
  {
  }

  /**
   A manifest's path parses back exactly when the name is non-empty and free of the
   separator up to its own, and the reference does not make the path a tag list.
   */
  lemma ManifestRoundTripsIff(name: string, reference: string)
    ensures ParsePath(Mounted(Print(Manifest(name, reference)))) == Manifest(name, reference) <==>
            name != "" && FirstAfter(name, SEPARATOR) && !HasSuffix(SEPARATOR + reference, TAGS)
    ensures ParsePath("/" + Print(Manifest(name, reference))) == Manifest(name, reference) <==>
            && name != "" && FirstAfter(name, SEPARATOR) && !HasSuffix(SEPARATOR + reference, TAGS)
            && !HasPrefix(Print(Manifest(name, reference)), "v2")
  {
    var p := name + (SEPARATOR + reference);
    StrippedRoundTripIff(Manifest(name, reference));
    LongPathIsImage(p);
    SuffixOfTail(name, SEPARATOR + reference, TAGS);
    CutAtFirst(name, SEPARATOR, reference, p, Index(p, SEPARATOR));
    IsManifest(p, name, reference);
  }

  lemma FirstIsFirstAfter(p: string, sep: string, i: int)
    requires i == Index(p, sep) && i >= 0
    ensures i + |sep| <= |p| && FirstAfter(p[..i], sep)
  {
    SplitAtIndex(p, sep, i);
    IndexAfterName(p[..i], sep, p[i + |sep|..]);
  }

  /** What a manifest route is parsed to is a name that manifest paths can tell apart. */
  lemma ParsedNamesAreRoutable(path: string)
    requires ParsePath(path).Manifest?
    ensures Routable(ParsePath(path).name) && ParsePath(path).name != ""
  {
    var p := TrimPrefix(TrimPrefix(path, MOUNT), "/");
    FirstIsFirstAfter(p, SEPARATOR, Index(p, SEPARATOR));
  }

  // ---------------------------------------------------------------- blobs and uploads

  /** A suffix in which no slash is followed by `b` past its start cannot reach over the start of `tail`. */
  lemma SuffixStopsAtBlobs(name: string, tail: string, suffix: string)
    requires |tail| >= 2 && tail[0] == '/' && tail[1] == 'b'
    requires forall k :: 0 < k < |suffix| - 1 ==> !(suffix[k] == '/' && suffix[k + 1] == 'b')
    ensures HasSuffix(name + tail, suffix) <==> HasSuffix(tail, suffix)
  {
    var p, k := name + tail, |suffix| - |tail|;
    if k <= 0 {
      SuffixOfTail(name, tail, suffix);
    } else if |suffix| <= |p| {
      SuffixChar(p, suffix, k);
      SuffixChar(p, suffix, k + 1);
    }
  }

  lemma SuffixChar(s: string, suffix: string, k: nat)
    requires k < |suffix| <= |s|
    ensures HasSuffix(s, suffix) ==> s[|s| - |suffix| + k] == suffix[k]
  {
    assert s[|s| - |suffix|..][k] == s[|s| - |suffix| + k];
  }

  /** Starting an upload round-trips for every name, the empty one included, that does not make it a manifest's path. */
  lemma UploadStartRoundTripsIff(name: string)
    ensures ParsePath(Mounted(Print(UploadStart(name)))) == UploadStart(name) <==>
            Index(Print(UploadStart(name)), SEPARATOR) <= 0
    ensures ParsePath("/" + Print(UploadStart(name))) == UploadStart(name) <==>
            Index(Print(UploadStart(name)), SEPARATOR) <= 0 && !HasPrefix(Print(UploadStart(name)), "v2")
  {
    StrippedRoundTripIff(UploadStart(name));
    var p := name + UPLOADS_SLASH;
    Joins(name, UPLOADS_SLASH);
    LongPathIsImage(p);
    SuffixOfTail(name, UPLOADS_SLASH, TAGS);
  }

  lemma IsSession(p: string, name: string, reference: string)
    ensures ImageRoute(p) == UploadSession(name, reference) <==>
            var i := Index(p, UPLOADS_SLASH);
            && !HasSuffix(p, TAGS) && Index(p, SEPARATOR) <= 0
            && !HasSuffix(p, UPLOADS_SLASH) && !HasSuffix(p, UPLOADS)
            && i > 0 && p[..i] == name && p[i + |UPLOADS_SLASH|..] == reference
  {
  }

  /**
   An upload session's path parses back exactly when no earlier rule claims it and the name
   ends at its own separator.
   */
  lemma UploadSessionRoundTripsIff(name: string, id: string)
    ensures ParsePath(Mounted(Print(UploadSession(name, id)))) == UploadSession(name, id) <==>
            var tail := UPLOADS_SLASH + id;
            && name != "" && FirstAfter(name, UPLOADS_SLASH)
            && Index(name + tail, SEPARATOR) <= 0
            && !HasSuffix(tail, TAGS) && !HasSuffix(tail, UPLOADS_SLASH) && !HasSuffix(tail, UPLOADS)
    ensures ParsePath("/" + Print(UploadSession(name, id))) == UploadSession(name, id) <==>
            var tail := UPLOADS_SLASH + id;
            && name != "" && FirstAfter(name, UPLOADS_SLASH)
            && Index(name + tail, SEPARATOR) <= 0
            && !HasSuffix(tail, TAGS) && !HasSuffix(tail, UPLOADS_SLASH) && !HasSuffix(tail, UPLOADS)
            && !HasPrefix(name + tail, "v2")
  {
    StrippedRoundTripIff(UploadSession(name, id));
    var tail := UPLOADS_SLASH + id;
    var p := name + tail;
    LongPathIsImage(p);
    SuffixOfTail(name, tail, TAGS);
    SuffixOfTail(name, tail, UPLOADS_SLASH);
    SuffixOfTail(name, tail, UPLOADS);
    CutAtFirst(name, UPLOADS_SLASH, id, p, Index(p, UPLOADS_SLASH));
    IsSession(p, name, id);
  }

  lemma UploadsStartWithBlobs(p: string, j: int)
    ensures OccursAt(p, UPLOADS_SLASH, j) ==> OccursAt(p, BLOBS, j)
  {
    assert UPLOADS_SLASH[..7] == BLOBS;
    assert OccursAt(p, UPLOADS_SLASH, j) ==> p[j..j + 7] == p[j..j + 15][..7];
  }

  /** Behind a name that ends at the first `/blobs/`, a longer separator can only be found in what follows. */
  lemma UploadsOnlyInTail(name: string, tail: string, p: string)
    requires p == name + tail && name != "" && Index(p, BLOBS) == |name|
    ensures Index(p, UPLOADS_SLASH) <= 0 <==> !Contains(tail, UPLOADS_SLASH)
  {
    var i, j := Index(p, UPLOADS_SLASH), Index(tail, UPLOADS_SLASH);
    UploadsStartWithBlobs(p, i);
    if i >= |name| { OccursInSuffix(name, tail, UPLOADS_SLASH, i); }
    OccursInSuffix(name, tail, UPLOADS_SLASH, |name| + if j < 0 then 0 else j);
  }

  /** No rule for tag lists or uploads claims the path. */
  predicate Unclaimed(p: string) {
    !HasSuffix(p, TAGS) && !HasSuffix(p, UPLOADS_SLASH) && !HasSuffix(p, UPLOADS) && Index(p, UPLOADS_SLASH) <= 0
  }

  lemma IsBlob(p: string, name: string, reference: string)
    ensures ImageRoute(p) == Blob(name, reference) <==>
            var i := Index(p, BLOBS);
            && Unclaimed(p) && Index(p, SEPARATOR) <= 0
            && i > 0 && p[..i] == name && p[i + |BLOBS|..] == reference
  {
  }

  lemma UnclaimedIff(name: string, tail: string)
    requires |tail| >= 2 && tail[0] == '/' && tail[1] == 'b'
    requires name != "" && Index(name + tail, BLOBS) == |name|
    ensures Unclaimed(name + tail) <==>
            !HasSuffix(tail, TAGS) && !HasSuffix(tail, UPLOADS) && !Contains(tail, UPLOADS_SLASH)
  {
    SuffixStopsAtBlobs(name, tail, TAGS);
    SuffixStopsAtBlobs(name, tail, UPLOADS);
    SuffixStopsAtBlobs(name, tail, UPLOADS_SLASH);
    SuffixIsContained(tail, UPLOADS_SLASH);
    UploadsOnlyInTail(name, tail, name + tail);
  }

  /** What follows the name does not look like a tag list or an upload. */
  predicate PlainTail(tail: string) {
    !HasSuffix(tail, TAGS) && !HasSuffix(tail, UPLOADS) && !Contains(tail, UPLOADS_SLASH)
  }

  lemma BlobUnclaimedIff(name: string, digest: string)
    requires name != "" && FirstAfter(name, BLOBS)
    ensures Unclaimed(name + (BLOBS + digest)) <==> PlainTail(BLOBS + digest)
  {
    IndexAfterName(name, BLOBS, digest);
    UnclaimedIff(name, BLOBS + digest);
  }

  /** A blob's path parses back exactly when no earlier rule claims it and the name ends at its own separator. */
  lemma BlobRoundTripsIff(name: string, digest: string)
    ensures ParsePath(Mounted(Print(Blob(name, digest)))) == Blob(name, digest) <==>
            && name != "" && FirstAfter(name, BLOBS)
            && Index(name + (BLOBS + digest), SEPARATOR) <= 0
            && PlainTail(BLOBS + digest)
    ensures ParsePath("/" + Print(Blob(name, digest))) == Blob(name, digest) <==>
            && name != "" && FirstAfter(name, BLOBS)
            && Index(name + (BLOBS + digest), SEPARATOR) <= 0
            && PlainTail(BLOBS + digest) && !HasPrefix(name + (BLOBS + digest), "v2")
  {
    StrippedRoundTripIff(Blob(name, digest));
    var p := name + (BLOBS + digest);
    BlobPathIsImage(name, digest);
    BlobParsesIff(name, digest, p);
    if name != "" && FirstAfter(name, BLOBS) { BlobUnclaimedIff(name, digest); }
  }

  lemma BlobParsesIff(name: string, digest: string, p: string)
    requires p == name + (BLOBS + digest)
    ensures ImageRoute(p) == Blob(name, digest) <==>
            name != "" && FirstAfter(name, BLOBS) && Unclaimed(p) && Index(p, SEPARATOR) <= 0
  {
    CutAtFirst(name, BLOBS, digest, p, Index(p, BLOBS));
    IsBlob(p, name, digest);
  }

  lemma SuffixIsContained(s: string, suffix: string)
    ensures HasSuffix(s, suffix) ==> Contains(s, suffix)
  {
    assert HasSuffix(s, suffix) ==> OccursAt(s, suffix, |s| - |suffix|);
  }

  lemma BlobPathIsImage(name: string, digest: string)
    ensures ParsePath(Mounted(name + (BLOBS + digest))) == ImageRoute(name + (BLOBS + digest))
  {
    var p := name + (BLOBS + digest);
    MountedTrims(p);
    assert p[|name|] == '/';
  }

  /** The image `v2ray` is taken for `ray`. */
  lemma V2RayIsRay(reference: string)
    ensures ParsePath("/" + Print(Manifest("v2ray", reference))) == Manifest("ray", reference) <==>
            !HasSuffix(SEPARATOR + reference, TAGS)
  {
    assert "v2" + "ray" == "v2ray";
    V2IsDropped(Manifest("ray", reference));
    FirstInRay();
    ManifestRoundTripsIff("ray", reference);
  }

  lemma FirstInRay()
    ensures FirstAfter("ray", SEPARATOR)
  {
    var p := "ray" + SEPARATOR;
    assert OccursAt(p, SEPARATOR, 3);
    forall j | 0 <= j < 3 ensures !OccursAt(p, SEPARATOR, j) { OccurrenceChar(p, SEPARATOR, j, 0); }
  }
}
