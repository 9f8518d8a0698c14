/**
 The pure half of share.ts: where a product's photo lives, what type it is, and
 under which name its copy is stored.
 */
module SharePhoto {
  import opened Prelude

  type byte = b: int | 0 <= b < 256
  type Bytes = seq<byte>

  const MAX_PHOTO_BYTES := 5 * 1024 * 1024

  const ALLOWED_CONTENT_TYPES := {
    "image/png", "image/jpeg", "image/jpg", "image/webp", "image/heic", "image/heif"
  }

  datatype Photo = Photo(bytes: Bytes, contentType: string)
  datatype Candidate = Candidate(productId: string, businessId: string, imageUrl: string)

  /** A row of barcode_catalogue_photos. */
  datatype SharedRow = SharedRow(gtin14: string, objectPath: string, sha256: string)

  datatype SkipReason = InvalidSource | SourceMissing | TooLarge | UnsupportedType | Blocked
  datatype Skip = Skip(productId: string, reason: SkipReason)

  datatype Status = Shared | AlreadyShared | NothingToShare
  datatype ShareOutcome = ShareOutcome(
    status: Status,
    gtin14: string,
    productId: Option<string>,
    sha256: Option<string>,
    adoptedOrphan: bool,
    skipped: seq<Skip>)

  /**
   The library calls share.ts makes: SHA-256, URL parsing, percent decoding and
   two string methods. They are parameters; nothing is assumed of them.
   */
  datatype Platform = Platform(
    sha256Hex: Bytes -> string,
    urlPathname: string -> Option<string>,
    decodeUriComponent: string -> Option<string>,
    trim: string -> string,
    toLowerCase: string -> string)

  /** What the handler accepts as a GTIN: fourteen ASCII digits. */
  predicate IsGtin14(s: string) {
    |s| == 14 && forall i :: 0 <= i < |s| ==> '0' <= s[i] <= '9'
  }

  // ---------------------------------------------------------------- object names

  function Extension(contentType: string): Option<string> {
    if contentType == "image/jpeg" || contentType == "image/jpg" then Some("jpg")
    else if contentType == "image/png" then Some("png")
    else if contentType == "image/webp" then Some("webp")
    else if contentType == "image/heic" then Some("heic")
    else if contentType == "image/heif" then Some("heif")
    else None
  }

  /** `<gtin14>.<ext>`; None where the source throws for a type without an extension. */
  function SharedObjectPath(gtin14: string, contentType: string): Option<string> {
    match Extension(contentType)
    case None => None
    case Some(ext) => Some(gtin14 + "." + ext)
  }

  /** The GTIN an object of the shared bucket belongs to: the part in front of the dot. */
  function GtinOf(path: string): string {
    if |path| < 14 then "" else path[..14]
  }

  /** The types a stored copy can have; `image/jpg` is stored as `image/jpeg`. */
  const NAMED_TYPES := { "image/jpeg", "image/png", "image/webp", "image/heic", "image/heif" }

  /** `path` is the name of a copy of some barcode's photo. */
  predicate IsSharedName(path: string) {
    IsGtin14(GtinOf(path)) && exists t :: t in NAMED_TYPES && SharedObjectPath(GtinOf(path), t) == Some(path)
  }

  lemma PathBelongsToGtin(gtin14: string, contentType: string)
    requires IsGtin14(gtin14) && Extension(contentType).Some?
    ensures GtinOf(SharedObjectPath(gtin14, contentType).value) == gtin14
    ensures IsSharedName(SharedObjectPath(gtin14, contentType).value)
  {
    var path := SharedObjectPath(gtin14, contentType).value;
    assert path == gtin14 + ("." + Extension(contentType).value);
    var t := if contentType == "image/jpg" then "image/jpeg" else contentType;
    assert t in NAMED_TYPES && SharedObjectPath(gtin14, t) == Some(path);
  }

  /**
   Two names collide exactly when GTIN and extension agree, so no run can reach
   an object of another barcode.
   */
  lemma PathInjective(g1: string, t1: string, g2: string, t2: string)
    requires IsGtin14(g1) && IsGtin14(g2) && Extension(t1).Some? && Extension(t2).Some?
    ensures SharedObjectPath(g1, t1) == SharedObjectPath(g2, t2) <==>
            g1 == g2 && Extension(t1) == Extension(t2)
  {
    PathBelongsToGtin(g1, t1);
    PathBelongsToGtin(g2, t2);
    var p1, p2 := SharedObjectPath(g1, t1).value, SharedObjectPath(g2, t2).value;
    assert p1[15..] == Extension(t1).value;
    assert p2[15..] == Extension(t2).value;
  }

  // ---------------------------------------------------------------- content type

  predicate StartsWith(bytes: Bytes, at: nat, sig: seq<int>) {
    |bytes| >= at + |sig| && forall i :: 0 <= i < |sig| ==> bytes[at + i] == sig[i]
  }

  function SniffContentType(bytes: Bytes): Option<string> {
    if StartsWith(bytes, 0, [0xff, 0xd8, 0xff]) then Some("image/jpeg")
    else if StartsWith(bytes, 0, [0x89, 0x50, 0x4e, 0x47, 0x0d, 0x0a, 0x1a, 0x0a]) then Some("image/png")
    else if StartsWith(bytes, 0, [0x52, 0x49, 0x46, 0x46]) && StartsWith(bytes, 8, [0x57, 0x45, 0x42, 0x50])
    then Some("image/webp")
    else None
  }

  /** `s.split(";")[0]` */
  function BeforeSemicolon(s: string): (r: string)
    ensures r <= s && ';' !in r && (r == s || s[|r|] == ';')
  {
    if s == "" || s[0] == ';' then "" else [s[0]] + BeforeSemicolon(s[1..])
  }

  /**
   The photo's real type. Whatever comes out has a file extension, so naming the
   copy never throws, and `image/jpg` never comes out.
   */
  function PhotoContentType(platform: Platform, photo: Photo): (r: Option<string>)
    ensures r.Some? ==> Extension(r.value).Some? && r.value != "image/jpg"
    ensures SniffContentType(photo.bytes).Some? ==> r == SniffContentType(photo.bytes)
  {
    var sniffed := SniffContentType(photo.bytes);
    if sniffed.Some? then sniffed
    else
      var declared := platform.toLowerCase(platform.trim(BeforeSemicolon(photo.contentType)));
      if declared !in ALLOWED_CONTENT_TYPES then None
      else if declared == "image/jpg" then Some("image/jpeg") else Some(declared)
  }

  /** `bytes` at `at` spell `text` in ASCII. */
  predicate Spells(bytes: Bytes, at: nat, text: string) {
    at + |text| <= |bytes| && forall i :: 0 <= i < |text| ==> bytes[at + i] == text[i] as int
  }

  predicate IsJpeg(bytes: Bytes) { [0xff, 0xd8, 0xff] <= bytes }

  /** A PNG file begins with 0x89, "PNG", a line end, an end-of-file mark and a line feed. */
  predicate IsPng(bytes: Bytes) {
    |bytes| >= 8 && bytes[0] == 0x89 && Spells(bytes, 1, "PNG\r\n") && bytes[6] == 26 && bytes[7] == 10
  }

  predicate IsWebp(bytes: Bytes) { Spells(bytes, 0, "RIFF") && Spells(bytes, 8, "WEBP") }

  lemma SameText(bytes: Bytes, at: nat, sig: seq<int>, text: string)
    requires |sig| == |text| && forall i :: 0 <= i < |sig| ==> sig[i] == text[i] as int
    ensures StartsWith(bytes, at, sig) <==> Spells(bytes, at, text)
  {
  }

  lemma PngSignature(bytes: Bytes)
    ensures StartsWith(bytes, 0, [0x89, 0x50, 0x4e, 0x47, 0x0d, 0x0a, 0x1a, 0x0a]) <==> IsPng(bytes)
  {
    var sig := [0x89, 0x50, 0x4e, 0x47, 0x0d, 0x0a, 0x1a, 0x0a];
    var text: string := "PNG\r\n";
    assert text[0] == 'P' && text[1] == 'N' && text[2] == 'G' && text[3] == '\r' && text[4] == '\n';
    if StartsWith(bytes, 0, sig) {
      assert bytes[0] == sig[0] && bytes[1] == sig[1] && bytes[2] == sig[2] && bytes[3] == sig[3];
      assert bytes[4] == sig[4] && bytes[5] == sig[5] && bytes[6] == sig[6] && bytes[7] == sig[7];
      forall i | 0 <= i < |text|
        ensures bytes[1 + i] == text[i] as int
      {
      }
    }
    if IsPng(bytes) {
      assert bytes[1] == text[0] as int && bytes[2] == text[1] as int && bytes[3] == text[2] as int;
      assert bytes[4] == text[3] as int && bytes[5] == text[4] as int;
      forall i | 0 <= i < 8
        ensures bytes[0 + i] == sig[i]
      {
      }
    }
  }

  /** The three formats are told apart by their file signatures, and nothing else is recognised. */
  lemma SniffedExactly(bytes: Bytes)
    ensures SniffContentType(bytes) == Some("image/jpeg") <==> IsJpeg(bytes)
    ensures SniffContentType(bytes) == Some("image/png") <==> IsPng(bytes)
    ensures SniffContentType(bytes) == Some("image/webp") <==> IsWebp(bytes)
    ensures SniffContentType(bytes).None? <==> !IsJpeg(bytes) && !IsPng(bytes) && !IsWebp(bytes)
  {
    PngSignature(bytes);
    var riff := [0x52, 0x49, 0x46, 0x46];
    SameText(bytes, 0, riff, "RIFF");
    SameText(bytes, 8, [0x57, 0x45, 0x42, 0x50], "WEBP");
    assert StartsWith(bytes, 0, riff) ==> bytes[0] == riff[0];
  }

  /** The declared type of a photo whose bytes say nothing, as the source reads it. */
  lemma DeclaredTypeExactly(platform: Platform, photo: Photo, declared: string)
    requires SniffContentType(photo.bytes).None?
    requires declared == platform.toLowerCase(platform.trim(BeforeSemicolon(photo.contentType)))
    ensures PhotoContentType(platform, photo) ==
      if declared in {"image/jpeg", "image/jpg"} then Some("image/jpeg")
      else if declared in {"image/png", "image/webp", "image/heic", "image/heif"} then Some(declared)
      else None
  {
  }

  /** Every type the bucket takes, and no other, has an extension: what follows the slash, but jpg for JPEG. */
  lemma NamedByType(gtin14: string, contentType: string)
    ensures contentType == "image/jpeg" || contentType == "image/jpg"
            ==> SharedObjectPath(gtin14, contentType) == Some(gtin14 + ".jpg")
    ensures contentType != "image/jpeg" && contentType != "image/jpg" && contentType in ALLOWED_CONTENT_TYPES ==>
              exists ext :: contentType == "image/" + ext && SharedObjectPath(gtin14, contentType) == Some(gtin14 + "." + ext)
    ensures SharedObjectPath(gtin14, contentType).Some?
            <==> contentType in {"image/png", "image/jpeg", "image/jpg", "image/webp", "image/heic", "image/heif"}
  {
    assert gtin14 + "." + "jpg" == gtin14 + ".jpg";
    assert "image/png" == "image/" + "png" && "image/webp" == "image/" + "webp";
    assert "image/heic" == "image/" + "heic" && "image/heif" == "image/" + "heif";
  }

  // ---------------------------------------------------------------- source path

  const SOURCE_PATH_PREFIX := "/storage/v1/object/public/product-images/"

  /** `path.split("/")`: always at least one segment, none containing a slash. */
  function Segments(path: string): (r: seq<string>)
    ensures |r| >= 1
  {
    if path == "" then [""]
    else
      var rest := Segments(path[1..]);
      if path[0] == '/' then [""] + rest
      else [[path[0]] + rest[0]] + rest[1..]
  }

  function Join(segments: seq<string>): string
    requires |segments| >= 1
  {
    if |segments| == 1 then segments[0] else segments[0] + "/" + Join(segments[1..])
  }

  function SourceObjectPath(platform: Platform, imageUrl: string, businessId: string): Option<string> {
    match platform.urlPathname(imageUrl)
    case None => None
    case Some(pathname) =>
      if !(SOURCE_PATH_PREFIX <= pathname) then None
      else
        match platform.decodeUriComponent(pathname[|SOURCE_PATH_PREFIX|..])
        case None => None
        case Some(path) =>
          var segments := Segments(path);
          if |segments| < 2 then None
          else if exists s :: s in segments && (s == "" || s == "." || s == "..") then None
          else if platform.toLowerCase(segments[0]) != platform.toLowerCase(businessId) then None
          else Some(path)
  }

  lemma {:induction false} SegmentsJoin(path: string)
    ensures Join(Segments(path)) == path
    ensures forall s :: s in Segments(path) ==> '/' !in s
  {
    if path != "" {
      SegmentsJoin(path[1..]);
      var rest := Segments(path[1..]);
      var all := Segments(path);
      assert path == [path[0]] + path[1..];
      if path[0] == '/' {
        assert all[1..] == rest;
      } else {
        assert all[0] == [path[0]] + rest[0];
        assert all[1..] == rest[1..];
        assert '/' !in rest[0];
      }
    }
  }

  /** Names without slashes survive being joined and split. */
  lemma {:induction false} JoinSegments(names: seq<string>)
    requires |names| >= 1 && forall s :: s in names ==> '/' !in s
    ensures Segments(Join(names)) == names
    decreases |names|
  {
    if |names| == 1 {
      OneSegment(names[0]);
    } else {
      forall s | s in names[1..]
        ensures '/' !in s
      {
      }
      JoinSegments(names[1..]);
      assert names[0] in names;
      SplitFirst(names[0], Join(names[1..]));
      assert names == [names[0]] + names[1..];
    }
  }

  lemma {:induction false} OneSegment(s: string)
    requires '/' !in s
    ensures Segments(s) == [s]
  {
    if s != "" {
      OneSegment(s[1..]);
      assert s[0] in s && [s[0]] + s[1..] == s;
    }
  }

  lemma {:induction false} SplitFirst(s: string, rest: string)
    requires '/' !in s
    ensures Segments(s + "/" + rest) == [s] + Segments(rest)
  {
    var all := s + "/" + rest;
    if s == "" {
      assert all[1..] == rest;
    } else {
      assert s[0] in s && all[0] == s[0] && all[1..] == s[1..] + "/" + rest;
      SplitFirst(s[1..], rest);
      assert [s[0]] + s[1..] == s;
    }
  }

  predicate PlainName(s: string) {
    s != "" && s != "." && s != ".." && '/' !in s
  }

  /**
   An accepted source path is a relative path of two or more plain names whose
   first name is the product's own business folder: no `..` and no empty name
   can lead out of it.
   */
  lemma SourceStaysInBusinessFolder(platform: Platform, imageUrl: string, businessId: string)
    requires SourceObjectPath(platform, imageUrl, businessId).Some?
    ensures exists names: seq<string> ::
              && |names| >= 2
              && Join(names) == SourceObjectPath(platform, imageUrl, businessId).value
              && (forall s :: s in names ==> PlainName(s))
              && platform.toLowerCase(names[0]) == platform.toLowerCase(businessId)
  {
    var path := SourceObjectPath(platform, imageUrl, businessId).value;
    SegmentsJoin(path);
    var names := Segments(path);
    assert Join(names) == path;
    assert forall s :: s in names ==> PlainName(s);
  }

  /** `names` is a path of plain names inside the folder of business `businessId`, whatever its case. */
  predicate InFolder(platform: Platform, names: seq<string>, businessId: string) {
    && |names| >= 2
    && (forall s :: s in names ==> PlainName(s))
    && platform.toLowerCase(names[0]) == platform.toLowerCase(businessId)
  }

  /** The URL leads, percent-encoded, to `path` in the bucket product-images. */
  predicate LeadsTo(platform: Platform, imageUrl: string, rest: string, path: string) {
    && platform.urlPathname(imageUrl) == Some("/storage/v1/object/public/product-images/" + rest)
    && platform.decodeUriComponent(rest) == Some(path)
  }

  lemma AcceptedLeadsTo(platform: Platform, imageUrl: string, businessId: string, path: string)
    requires SourceObjectPath(platform, imageUrl, businessId) == Some(path)
    ensures exists rest :: LeadsTo(platform, imageUrl, rest, path)
  {
    var pathname := platform.urlPathname(imageUrl).value;
    var rest := pathname[|SOURCE_PATH_PREFIX|..];
    assert pathname == SOURCE_PATH_PREFIX + rest;
    assert LeadsTo(platform, imageUrl, rest, path);
  }

  lemma FolderPathAccepted(platform: Platform, imageUrl: string, businessId: string, rest: string, names: seq<string>)
    requires InFolder(platform, names, businessId) && LeadsTo(platform, imageUrl, rest, Join(names))
    ensures SourceObjectPath(platform, imageUrl, businessId) == Some(Join(names))
  {
    var pathname := platform.urlPathname(imageUrl).value;
    assert pathname[|SOURCE_PATH_PREFIX|..] == rest;
    JoinSegments(names);
  }

  /**
   What is accepted, exactly: a URL whose path is the public prefix of the bucket
   product-images and then, percent-encoded, two or more plain names of which the
   first is the business folder; and the answer is those names with slashes between.
   */
  lemma AcceptedExactly(platform: Platform, imageUrl: string, businessId: string, path: string)
    ensures SourceObjectPath(platform, imageUrl, businessId) == Some(path) <==>
              && (exists rest :: LeadsTo(platform, imageUrl, rest, path))
              && (exists names :: InFolder(platform, names, businessId) && Join(names) == path)
  {
    if SourceObjectPath(platform, imageUrl, businessId) == Some(path) {
      AcceptedLeadsTo(platform, imageUrl, businessId, path);
      SourceStaysInBusinessFolder(platform, imageUrl, businessId);
      var names: seq<string> :| |names| >= 2 && Join(names) == path && (forall s :: s in names ==> PlainName(s))
        && platform.toLowerCase(names[0]) == platform.toLowerCase(businessId);
      assert InFolder(platform, names, businessId);
    }
    if rest, names :| LeadsTo(platform, imageUrl, rest, path) && InFolder(platform, names, businessId) && Join(names) == path {
      FolderPathAccepted(platform, imageUrl, businessId, rest, names);
    }
  }
}
