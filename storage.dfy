/** The pure helpers of lib/storage-helpers.ts around the image bucket: random ids and safe
    file names for uploads, image validation, the five-minute cache of the stock listing, the
    listing filter, the upload path, and reading storage paths and kinds back out of public
    URLs. Storage calls themselves, the browser's localStorage serialisation and
    Math.random() are outside; random draws and the clock are parameters. */
module StorageHelpers {
  import opened Wrappers
  import opened Text

  const BucketName: string := "eventhorizon-images"
  const StockFolder: string := "stock"
  const CustomFolder: string := "custom"
  const MaxFileSize: int := 25 * 1024 * 1024
  const AllowedMimePrefix: string := "image/"
  const CacheTtl: int := 5 * 60 * 1000

  predicate StartsWith(s: string, p: string) {
    |p| <= |s| && s[..|p|] == p
  }

  predicate EndsWith(s: string, p: string) {
    |p| <= |s| && s[|s| - |p|..] == p
  }

  // ---------------------------------------------------------------- random ids

  /** One draw of Math.floor(Math.random() * 36): an index into the 36 id characters. */
  type Draw = d: int | 0 <= d < 36

  /** chars.charAt(d) for chars = "abcdefghijklmnopqrstuvwxyz0123456789". */
  function IdChar(d: Draw): (c: char)
    ensures IsLowerAlnum(c)
    ensures d < 26 ==> c as int - 'a' as int == d
    ensures d >= 26 ==> c as int - '0' as int == d - 26
  {
    if d < 26 then ('a' as int + d) as char else ('0' as int + d - 26) as char
  }

  /** generateRandomId: one id character per draw, `length` of them (none for a length of
      zero or less). */
  method GenerateRandomId(length: int, draws: seq<Draw>) returns (result: string)
    requires length <= |draws|
    ensures |result| == (if length < 0 then 0 else length)
    ensures forall i :: 0 <= i < |result| ==> result[i] == IdChar(draws[i]) && IsLowerAlnum(result[i])
  {
    result := "";
    var i := 0;
    while i < length
      invariant 0 <= i <= (if length < 0 then 0 else length) && |result| == i
      invariant forall j :: 0 <= j < i ==> result[j] == IdChar(draws[j])
    {
      result := result + [IdChar(draws[i])];
      i := i + 1;
    }
  }

  // ---------------------------------------------------------------- file names

  /** Characters the sanitised base keeps: [a-z0-9-]. */
  predicate SafeChar(c: char) {
    IsLowerAlnum(c) || c == '-'
  }

  predicate AllSafe(s: string) {
    forall i :: 0 <= i < |s| ==> SafeChar(s[i])
  }

  /** replace(/[^a-z0-9-]/g, '-'). */
  function Dashed(s: string): (r: string)
    ensures |r| == |s| && AllSafe(r)
    ensures forall i :: 0 <= i < |s| ==> (SafeChar(s[i]) ==> r[i] == s[i]) && (!SafeChar(s[i]) ==> r[i] == '-')
  {
    seq(|s|, i requires 0 <= i < |s| => if SafeChar(s[i]) then s[i] else '-')
  }

  /** Collapsing dash runs keeps the characters [a-z0-9-]. */
  lemma CollapseSafe(s: string)
    requires AllSafe(s)
    ensures AllSafe(Collapse(s))
  {
    var r := Collapse(s);
    forall i | 0 <= i < |r| ensures SafeChar(r[i]) {
      var j :| 0 <= j < |s| && s[j] == r[i];
    }
  }

  /** replace(/^-|-$/g, ''): one leading and one trailing dash removed. */
  function StripDashes(s: string): (r: string)
    ensures |r| <= |s| && (AllSafe(s) ==> AllSafe(r)) && (NoDoubleDash(s) ==> NoDoubleDash(r))
  {
    var t := if s != [] && s[0] == '-' then s[1..] else s;
    if t != [] && t[|t| - 1] == '-' then t[..|t| - 1] else t
  }

  /** slice(0, n). */
  function Take(s: string, n: nat): (r: string)
    ensures |r| <= n && |r| <= |s| && r == s[..|r|]
    ensures |s| <= n ==> r == s
  {
    if |s| <= n then s else s[..n]
  }

  /** The sanitised base of a file name, before the "image" fallback. */
  function SanitizedBase(baseName: string): (r: string)
    ensures AllSafe(r) && NoDoubleDash(r) && |r| <= 50
    ensures r == [] || r[0] != '-'
  {
    var c := Collapse(Dashed(ToLower(baseName)));
    CollapseSafe(Dashed(ToLower(baseName)));
    var s := StripDashes(c);
    assert s == [] || s[0] != '-' by {
      if c != [] && c[0] == '-' && |c| >= 2 {
        assert !(c[0] == '-' && c[1] == '-');
      }
    }
    Take(s, 50)
  }

  /** String.prototype.slice(0, end) for the end lastIndexOf gives: -1 counts from the end. */
  function BaseName(fileName: string): (r: string)
    ensures LastIndexOf(fileName, '.') >= 0 ==> r == fileName[..LastIndexOf(fileName, '.')]
    ensures LastIndexOf(fileName, '.') < 0 && fileName != [] ==> r == fileName[..|fileName| - 1]
  {
    var dot := LastIndexOf(fileName, '.');
    if dot >= 0 then fileName[..dot]
    else if fileName == [] then [] else fileName[..|fileName| - 1]
  }

  /** The extension: the lower-cased text after the last dot (all of it without a dot). */
  function Extension(fileName: string): string {
    ToLower(AfterLast(fileName, '.'))
  }

  /** sanitizeFileName. */
  function SanitizeFileName(fileName: string): string {
    var base := SanitizedBase(BaseName(fileName));
    (if base == [] then "image" else base) + "." + Extension(fileName)
  }

  lemma ToLowerNoDot(s: string)
    requires '.' !in s
    ensures '.' !in ToLower(s)
  {
    forall i | 0 <= i < |s| ensures ToLower(s)[i] != '.' {
    }
  }

  lemma {:induction false} AfterLastConcat(a: string, b: string)
    requires '.' !in b
    ensures AfterLast(a + "." + b, '.') == b
    decreases |b|
  {
    var s := a + "." + b;
    if b == [] {
      assert s[|s| - 1] == '.';
    } else {
      assert s[..|s| - 1] == a + "." + b[..|b| - 1];
      assert b[|b| - 1] in b;
      AfterLastConcat(a, b[..|b| - 1]);
      assert b == b[..|b| - 1] + [b[|b| - 1]];
    }
  }

  lemma SafeNoDot(s: string)
    requires AllSafe(s)
    ensures '.' !in s
  {
  }

  /** A name and an extension without dots are read back from name + "." + extension. */
  lemma DottedParts(base: string, ext: string)
    requires '.' !in base && '.' !in ext
    ensures AfterLast(base + "." + ext, '.') == ext
    ensures BeforeFirst(base + "." + ext, '.') == base
  {
    AfterLastConcat(base, ext);
    assert base + "." + ext == base + ['.'] + ext;
    BeforeFirstPrefix(base, '.', ext);
  }

  /** A sanitised name reads back into its parts: the text before its first dot is a
      non-empty [a-z0-9-] base of at most 50 characters with no "--" and no leading dash,
      "image" when nothing of the original base survives, and the text after its last dot
      is the lower-cased extension of the original. */
  lemma SanitizeParts(fileName: string)
    ensures var r := SanitizeFileName(fileName);
      var base := BeforeFirst(r, '.');
      && AfterLast(r, '.') == Extension(fileName)
      && base != [] && AllSafe(base) && NoDoubleDash(base) && |base| <= 50 && base[0] != '-'
      && (SanitizedBase(BaseName(fileName)) == [] ==> base == "image")
  {
    ToLowerNoDot(AfterLast(fileName, '.'));
    JoinedParts(SanitizedBase(BaseName(fileName)), Extension(fileName));
  }

  lemma JoinedParts(b: string, ext: string)
    requires AllSafe(b) && NoDoubleDash(b) && |b| <= 50 && (b == [] || b[0] != '-')
    requires '.' !in ext
    ensures var base := if b == [] then "image" else b;
      var r := base + "." + ext;
      && AfterLast(r, '.') == ext && BeforeFirst(r, '.') == base
      && base != [] && AllSafe(base) && NoDoubleDash(base) && |base| <= 50 && base[0] != '-'
  {
    var base := if b == [] then "image" else b;
    assert AllSafe("image") && NoDoubleDash("image");
    SafeNoDot(base);
    DottedParts(base, ext);
  }

  lemma DashedClean(s: string)
    requires AllSafe(s)
    ensures Dashed(s) == s
  {
  }

  lemma ToLowerClean(s: string)
    requires AllSafe(s)
    ensures ToLower(s) == s
  {
  }

  /** A base that is already lower-case, safe, free of dash runs and not framed by dashes
      is only cut to length. */
  lemma SanitizedClean(s: string)
    requires AllSafe(s) && NoDoubleDash(s)
    requires s != [] && s[0] != '-' && s[|s| - 1] != '-'
    ensures SanitizedBase(s) == Take(s, 50)
  {
    ToLowerClean(s);
    DashedClean(s);
    CollapseClean(s);
    assert Collapse(Dashed(ToLower(s))) == s;
    assert StripDashes(s) == s;
  }

  /** The 50-character cut comes after the dashes are stripped, so a dash can end the base:
      49 lower-case letters, a dash and one more character keep the dash at position 50. */
  lemma TrailingDashSurvives(letters: string, c: char)
    requires |letters| == 49 && forall i :: 0 <= i < 49 ==> 'a' <= letters[i] <= 'z'
    requires 'a' <= c <= 'z'
    ensures SanitizedBase(letters + "-" + [c]) == letters + "-"
  {
    var s := letters + "-" + [c];
    assert AllSafe(s);
    assert NoDoubleDash(s) by {
      forall i | 0 <= i < |s| - 1 ensures !(s[i] == '-' && s[i + 1] == '-') {
        if i < 49 {
          assert s[i] == letters[i];
        }
      }
    }
    assert s[0] == letters[0];
    SanitizedClean(s);
    assert s[..50] == letters + "-";
  }

  /** A name without a dot loses its last character from the base and keeps all of itself
      as the extension: "photo" becomes "phot.photo". */
  lemma NoDotName(fileName: string)
    requires fileName != [] && '.' !in fileName
    ensures BaseName(fileName) == fileName[..|fileName| - 1]
    ensures Extension(fileName) == ToLower(fileName)
  {
  }

  // ---------------------------------------------------------------- validation

  datatype ImageValidationResult = Valid | InvalidType(message: string) | TooLarge(size: int)

  /** validateImageFile: the MIME type is checked first, then the size; the megabyte figures
      of the size message are not modelled. */
  function ValidateImageFile(mimeType: string, size: int): (r: ImageValidationResult)
    ensures r.Valid? <==> StartsWith(mimeType, AllowedMimePrefix) && size <= MaxFileSize
    ensures !StartsWith(mimeType, AllowedMimePrefix) ==>
      r == InvalidType("Invalid file type: " + mimeType + ". Only image files are allowed.")
    ensures StartsWith(mimeType, AllowedMimePrefix) && size > MaxFileSize ==> r == TooLarge(size)
  {
    if !StartsWith(mimeType, AllowedMimePrefix) then
      InvalidType("Invalid file type: " + mimeType + ". Only image files are allowed.")
    else if size > MaxFileSize then TooLarge(size)
    else Valid
  }

  // ---------------------------------------------------------------- the stock listing

  datatype StockImage = StockImage(name: string, url: string)

  /** An entry of the storage listing; folders have no id. */
  datatype FileObject = FileObject(id: Option<string>, name: string)

  const ImageExtensions: seq<string> := ["jpg", "jpeg", "png", "gif", "webp", "avif"]

  /** The listing filter: a file with an id, not the folder placeholder, whose lower-cased
      extension is an image extension. */
  predicate KeepFile(f: FileObject) {
    Truthy(f.id) && f.name != ".emptyFolderPlaceholder" && ToLower(AfterLast(f.name, '.')) in ImageExtensions
  }

  /** The filter and map of fetchStockImages; `publicUrl` is the storage client's
      getPublicUrl for a path in the bucket. */
  function StockImages(files: seq<FileObject>, publicUrl: string -> string): (r: seq<StockImage>)
    ensures |r| <= |files|
    ensures forall i :: 0 <= i < |r| ==> r[i].url == publicUrl(StockFolder + "/" + r[i].name)
  {
    if files == [] then []
    else
      var rest := StockImages(files[1..], publicUrl);
      if KeepFile(files[0]) then
        [StockImage(files[0].name, publicUrl(StockFolder + "/" + files[0].name))] + rest
      else rest
  }

  /** The listing is filtered entry by entry and in order: the images of two listings one
      after the other are the images of the first, then those of the second. */
  lemma {:induction false} StockImagesConcat(a: seq<FileObject>, b: seq<FileObject>, publicUrl: string -> string)
    ensures StockImages(a + b, publicUrl) == StockImages(a, publicUrl) + StockImages(b, publicUrl)
  {
    if a == [] {
      assert a + b == b;
    } else {
      assert (a + b)[0] == a[0] && (a + b)[1..] == a[1..] + b;
      StockImagesConcat(a[1..], b, publicUrl);
    }
  }

  /** One entry is kept exactly when it passes the filter. */
  lemma StockImagesSingle(f: FileObject, publicUrl: string -> string)
    ensures StockImages([f], publicUrl) ==
      if KeepFile(f) then [StockImage(f.name, publicUrl(StockFolder + "/" + f.name))] else []
  {
    assert [f][1..] == [];
  }

  // ---------------------------------------------------------------- the cache

  datatype StockImageCache = StockImageCache(images: seq<StockImage>, timestamp: int)

  /** A cached listing is served while it is younger than the time-to-live. */
  predicate Fresh(c: StockImageCache, now: int) {
    now - c.timestamp < CacheTtl
  }

  /** The localStorage slot that holds the cached listing. */
  class StockCache {
    var entry: Option<StockImageCache>

    constructor ()
      ensures entry == None
    {
      entry := None;
    }

    /** getCachedStockImages: the cached images while fresh; an expired entry is removed. */
    method GetCachedStockImages(now: int) returns (images: Option<seq<StockImage>>)
      modifies this
      ensures images.Some? <==> old(entry).Some? && Fresh(old(entry).value, now)
      ensures images.Some? ==> images.value == old(entry).value.images && entry == old(entry)
      ensures images.None? ==> entry == None
    {
      if entry.None? {
        return None;
      }
      var data := entry.value;
      if now - data.timestamp < CacheTtl {
        return Some(data.images);
      }
      entry := None;
      return None;
    }

    /** cacheStockImages: stores the listing with the current time. */
    method CacheStockImages(images: seq<StockImage>, now: int)
      modifies this
      ensures entry == Some(StockImageCache(images, now))
    {
      entry := Some(StockImageCache(images, now));
    }
  }

  /** A listing cached at `cachedAt` is served back at `now` exactly for the five minutes that
      follow, the cache time-to-live. */
  lemma CacheWindow(images: seq<StockImage>, cachedAt: int, now: int)
    ensures Fresh(StockImageCache(images, cachedAt), now) <==> now < cachedAt + 300000
  {
  }

  // ---------------------------------------------------------------- upload paths and URLs

  /** The path of an upload: custom/{userId}/{timestamp}-{randomId}-{sanitised name}. */
  function UploadPath(userId: string, timestamp: string, randomId: string, name: string): (path: string)
    ensures StartsWith(path, "custom/" + userId + "/")
  {
    var prefix := CustomFolder + "/" + userId + "/";
    assert prefix + (timestamp + "-" + randomId + "-" + name) == prefix + timestamp + "-" + randomId + "-" + name;
    assert (prefix + (timestamp + "-" + randomId + "-" + name))[..|prefix|] == prefix;
    prefix + timestamp + "-" + randomId + "-" + name
  }

  datatype UploadError = Rejected(validation: ImageValidationResult)

  /** The path uploadCustomImage stores to, after validation (the upload itself is not
      modelled): a file that fails validation is rejected with that validation result. */
  function UploadCustomImagePath(mimeType: string, size: int, fileName: string, userId: string,
                                 timestamp: int, randomId: string): (r: Result<string, UploadError>)
    ensures r.Err? <==> !ValidateImageFile(mimeType, size).Valid?
    ensures r.Err? ==> r.error == Rejected(ValidateImageFile(mimeType, size))
    ensures r.Ok? ==> r.value == UploadPath(userId, IntToString(timestamp), randomId, SanitizeFileName(fileName))
  {
    var validation := ValidateImageFile(mimeType, size);
    if !validation.Valid? then Err(Rejected(validation))
    else Ok(UploadPath(userId, IntToString(timestamp), randomId, SanitizeFileName(fileName)))
  }

  const PublicMarker: string := "/storage/v1/object/public/"

  /** Characters that the regular-expression dot does not match. */
  predicate IsLineTerminator(c: char) {
    c == '\n' || c == '\r' || c == '\U{2028}' || c == '\U{2029}'
  }

  predicate NoLineTerminator(s: string) {
    forall i :: 0 <= i < |s| ==> !IsLineTerminator(s[i])
  }

  /** The match of /\/storage\/v1\/object\/public\/[^/]+\/(.+)$/ starting at position i: a
      bucket of one or more non-slash characters, a slash, then a non-empty rest holding no
      line terminator, up to the end. */
  function MatchAt(url: string, i: nat): (r: Option<string>)
    ensures r.Some? ==> r.value != [] && EndsWith(url, r.value) && NoLineTerminator(r.value)
  {
    if !OccursAt(url, PublicMarker, i) then None
    else
      var after := url[i + |PublicMarker|..];
      var bucket := BeforeFirst(after, '/');
      if bucket == [] || |bucket| == |after| then None
      else
        var path := after[|bucket| + 1..];
        if path != [] && NoLineTerminator(path) then Some(path) else None
  }

  /** The leftmost match from position i on. */
  function FirstMatch(url: string, i: nat): (r: Option<string>)
    decreases |url| - i
    ensures r.Some? ==> r.value != [] && EndsWith(url, r.value) && NoLineTerminator(r.value)
  {
    if i > |url| then None
    else if MatchAt(url, i).Some? then MatchAt(url, i)
    else FirstMatch(url, i + 1)
  }

  /** extractStoragePath: None for an empty URL or one that does not match. */
  function ExtractStoragePath(url: string): (r: Option<string>)
    ensures url == [] ==> r == None
    ensures r.Some? ==> r.value != [] && EndsWith(url, r.value) && NoLineTerminator(r.value)
  {
    if url == [] then None else FirstMatch(url, 0)
  }

  predicate IsSupabaseStorageUrl(url: string) {
    url != [] && (Contains(url, "supabase.co/storage") || Contains(url, "supabase.in/storage"))
  }

  predicate IsStockImageUrl(url: string) {
    IsSupabaseStorageUrl(url) && Contains(url, "/" + StockFolder + "/")
  }

  predicate IsCustomImageUrl(url: string) {
    IsSupabaseStorageUrl(url) && Contains(url, "/" + CustomFolder + "/")
  }

  /** Positions that hold no match are passed over by the leftmost search. */
  lemma {:induction false} FirstMatchSkip(url: string, i: nat, k: nat)
    requires i <= k <= |url|
    requires forall j :: i <= j < k ==> MatchAt(url, j).None?
    ensures FirstMatch(url, i) == FirstMatch(url, k)
    decreases k - i
  {
    if i < k {
      FirstMatchSkip(url, i + 1, k);
    }
  }

  /** A public object URL reads back to its object path: host, then the public marker, a
      bucket without slashes, a slash and a non-empty path on one line give that path, when
      the marker does not occur earlier. */
  lemma ExtractPublicUrl(host: string, bucket: string, path: string)
    requires IndexOf(host + PublicMarker, PublicMarker) == |host|
    requires bucket != [] && '/' !in bucket
    requires path != [] && NoLineTerminator(path)
    ensures ExtractStoragePath(host + PublicMarker + bucket + "/" + path) == Some(path)
  {
    var url := host + PublicMarker + bucket + "/" + path;
    NoEarlierMatch(host, bucket, path);
    FirstMatchSkip(url, 0, |host|);
    MatchAtHost(host, bucket, path);
  }

  /** Before the first occurrence of the marker nothing matches. */
  lemma NoEarlierMatch(host: string, bucket: string, path: string)
    requires IndexOf(host + PublicMarker, PublicMarker) == |host|
    ensures forall j :: 0 <= j < |host| ==> MatchAt(host + PublicMarker + bucket + "/" + path, j).None?
  {
    var url := host + PublicMarker + bucket + "/" + path;
    var pre := host + PublicMarker;
    var n := |PublicMarker|;
    assert url == pre + (bucket + "/" + path);
    forall j | 0 <= j < |host| ensures MatchAt(url, j).None? {
      assert !OccursAt(pre, PublicMarker, j);
      assert url[j..j + n] == pre[j..j + n];
    }
  }

  /** Right after the host the marker, the bucket and the path match. */
  lemma MatchAtHost(host: string, bucket: string, path: string)
    requires bucket != [] && '/' !in bucket
    requires path != [] && NoLineTerminator(path)
    ensures MatchAt(host + PublicMarker + bucket + "/" + path, |host|) == Some(path)
  {
    var url := host + PublicMarker + bucket + "/" + path;
    var n := |PublicMarker|;
    assert url[|host|..|host| + n] == PublicMarker;
    var after := url[|host| + n..];
    assert after == bucket + "/" + path;
    BeforeFirstPrefix(bucket, '/', path);
    assert after[|bucket| + 1..] == path;
  }

  /** The leftmost search finds a match at some position from i on. */
  lemma {:induction false} FirstMatchAt(url: string, i: nat)
    requires FirstMatch(url, i).Some?
    ensures exists k: nat :: i <= k <= |url| && MatchAt(url, k) == FirstMatch(url, i)
    decreases |url| - i
  {
    if MatchAt(url, i).None? {
      FirstMatchAt(url, i + 1);
    }
  }

  lemma SplitAround(s: string, k: nat, n: nat)
    requires k + n <= |s|
    ensures s == s[..k] + s[k..k + n] + s[k + n..]
  {
  }

  /** A match at position k splits the URL into what precedes k, the public marker, the
      bucket, a slash and the matched path. */
  lemma MatchShape(url: string, k: nat)
    requires MatchAt(url, k).Some?
    ensures var after := url[k + |PublicMarker|..];
      var bucket := BeforeFirst(after, '/');
      && bucket != [] && '/' !in bucket
      && url == url[..k] + PublicMarker + bucket + "/" + MatchAt(url, k).value
  {
    var after := url[k + |PublicMarker|..];
    var bucket := BeforeFirst(after, '/');
    Reassemble(url, k, PublicMarker, after, bucket, MatchAt(url, k).value);
  }

  /** The pieces a match is cut into put the URL back together. */
  lemma Reassemble(url: string, k: nat, m: string, after: string, bucket: string, path: string)
    requires OccursAt(url, m, k) && after == url[k + |m|..]
    requires |bucket| < |after| && bucket == after[..|bucket|] && after[|bucket|] == '/'
    requires path == after[|bucket| + 1..]
    ensures url == url[..k] + m + bucket + "/" + path
  {
    SplitAround(after, |bucket|, 1);
    assert after == bucket + "/" + path;
    SplitAround(url, k, |m|);
  }

  /** Conversely, every extracted path comes from such a URL: the path follows the public
      marker, a non-empty bucket without slashes and a slash, and ends the URL. */
  lemma ExtractShape(url: string)
    requires ExtractStoragePath(url).Some?
    ensures var path := ExtractStoragePath(url).value;
      exists k: nat, bucket: string :: k <= |url| && bucket != [] && '/' !in bucket &&
        url == url[..k] + PublicMarker + bucket + "/" + path
  {
    FirstMatchAt(url, 0);
    var k: nat :| k <= |url| && MatchAt(url, k) == ExtractStoragePath(url);
    MatchShape(url, k);
  }

  lemma ContainsMiddle(a: string, t: string, b: string)
    ensures Contains(a + t + b, t)
  {
    assert (a + t + b)[|a|..|a| + |t|] == t;
    ContainsInfix(a + t + b, t, |a|);
  }

  lemma SupabaseCoMarker()
    ensures "supabase.co" + PublicMarker == "supabase.co/storage" + PublicMarker[8..]
  {
  }

  /** Any URL with a supabase.co host followed by the public marker is a storage URL. */
  lemma SupabaseCoUrl(host: string, rest: string)
    ensures IsSupabaseStorageUrl(host + "supabase.co" + PublicMarker + rest)
  {
    var tail := PublicMarker[8..] + rest;
    SupabaseCoMarker();
    assert host + "supabase.co" + PublicMarker + rest == host + "supabase.co/storage" + tail;
    ContainsMiddle(host, "supabase.co/storage", tail);
  }

  /** The public URL of a stock or custom image on a supabase.co host is classified as a
      storage URL of that kind. */
  lemma PublicUrlKinds(host: string, folder: string, name: string)
    requires folder == StockFolder || folder == CustomFolder
    ensures var url := host + "supabase.co" + PublicMarker + BucketName + "/" + folder + "/" + name;
      && IsSupabaseStorageUrl(url)
      && (folder == StockFolder ==> IsStockImageUrl(url))
      && (folder == CustomFolder ==> IsCustomImageUrl(url))
  {
    var a := host + "supabase.co" + PublicMarker + BucketName;
    var rest := BucketName + "/" + folder + "/" + name;
    Regroup(host + "supabase.co", PublicMarker, BucketName, folder, name);
    SupabaseCoUrl(host, rest);
    ContainsMiddle(a, "/" + folder + "/", name);
  }

  /** The two readings of a public object URL: the marker followed by the object path, and
      the bucket prefix followed by the folder segment and the object name. */
  lemma Regroup(h: string, m: string, b: string, f: string, n: string)
    ensures h + m + b + "/" + f + "/" + n == h + m + (b + "/" + f + "/" + n)
    ensures h + m + b + "/" + f + "/" + n == h + m + b + ("/" + f + "/") + n
  {
  }
}
