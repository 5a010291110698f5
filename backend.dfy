/**
 * The two request handlers of main.go, without HTTP: `getImages` over a
 * directory listing given as a sequence of entries, and `uploadImage` over
 * the uploaded file's name and size, the clock reading and the outcome of
 * saving the file.
 */
module Backend {
  import opened Wrappers
  import opened GoLib

  /** One entry of the uploads directory, as `os.ReadDir` reports it. */
  datatype DirEntry = DirEntry(name: string, isDir: bool)

  /** The `images` field of the JSON answer: `null` or an array of names. */
  datatype JsonNames = JsonNull | JsonArray(items: seq<string>)

  /** The answer of `GET /api/images`. */
  datatype ListResponse = Listed(images: JsonNames) | ReadDirFailed

  /** The image extensions `getImages` accepts, already lower-cased. */
  predicate IsImageExtension(ext: string): (b: bool)
    ensures b ==> 4 <= |ext| <= 5 && ext[0] == '.'
  {
    ext == ".jpg" || ext == ".jpeg" || ext == ".png" || ext == ".gif" || ext == ".webp" || ext == ".bmp"
  }

  /**
   * The accepted extensions are already lower-case, so an extension that
   * passes the test after lower-casing may have had any case before.
   */
  lemma ImageExtensionsAreLowerCase(ext: string)
    requires IsImageExtension(ext)
    ensures ToLower(ext) == ext
  {
    if ext == ".jpg" { LowerCaseWord(ext); }
    else if ext == ".jpeg" { LowerCaseWord(ext); }
    else if ext == ".png" { LowerCaseWord(ext); }
    else if ext == ".gif" { LowerCaseWord(ext); }
    else if ext == ".webp" { LowerCaseWord(ext); }
    else { LowerCaseWord(ext); }
  }

  /** A dot followed by lower-case ASCII letters is kept by lower-casing. */
  lemma LowerCaseWord(s: string)
    requires s != [] && s[0] == '.'
    requires forall j :: 1 <= j < |s| ==> 'a' <= s[j] <= 'z'
    ensures ToLower(s) == s
  {
    var l := ToLower(s);
    forall j | 0 <= j < |s|
      ensures l[j] == s[j]
    {
    }
  }

  /** An entry that `getImages` lists: a file whose lower-cased extension is an image one. */
  predicate IsImageEntry(e: DirEntry): (b: bool)
    ensures b ==> !e.isDir && 4 <= |Ext(e.name)| <= 5
  {
    !e.isDir && IsImageExtension(ToLower(Ext(e.name)))
  }

  /** The names of the listed entries, in directory order. */
  function FilterImages(files: seq<DirEntry>): (r: seq<string>)
    ensures |r| <= |files|
  {
    if files == [] then []
    else
      var last := files[|files| - 1];
      FilterImages(files[..|files| - 1]) + (if IsImageEntry(last) then [last.name] else [])
  }

  /** The names of all entries, in directory order. */
  function Names(files: seq<DirEntry>): (r: seq<string>)
    ensures |r| == |files| && forall j :: 0 <= j < |files| ==> r[j] == files[j].name
  {
    seq(|files|, j requires 0 <= j < |files| => files[j].name)
  }

  /** `xs` is `ys` with some elements left out, the rest kept in order. */
  predicate IsSubsequence<T(==)>(xs: seq<T>, ys: seq<T>)
    decreases |ys|
  {
    if ys == [] then xs == []
    else
      || (xs != [] && xs[|xs| - 1] == ys[|ys| - 1] && IsSubsequence(xs[..|xs| - 1], ys[..|ys| - 1]))
      || IsSubsequence(xs, ys[..|ys| - 1])
  }

  /** The `for` loop of `getImages`: append the name of every image file. */
  method CollectImageNames(files: seq<DirEntry>) returns (imageNames: seq<string>)
    ensures imageNames == FilterImages(files)
  {
    imageNames := [];
    var i := 0;
    while i < |files|
      invariant 0 <= i <= |files|
      invariant imageNames == FilterImages(files[..i])
    {
      var file := files[i];
      FilterStep(files, i);
      if !file.isDir {
        var ext := ToLower(Ext(file.name));
        if IsImageExtension(ext) {
          imageNames := imageNames + [file.name];
        }
      }
      i := i + 1;
    }
    assert files[..|files|] == files;
  }

  /** Extending the scanned prefix by one entry extends its listing by at most that entry. */
  lemma FilterStep(files: seq<DirEntry>, i: nat)
    requires i < |files|
    ensures FilterImages(files[..i + 1])
            == FilterImages(files[..i]) + (if IsImageEntry(files[i]) then [files[i].name] else [])
  {
    assert files[..i + 1][..i] == files[..i];
  }

  /**
   * The `images` field as main.go sends it: `imageNames` starts as a nil
   * slice and stays nil when nothing was appended, and a nil slice is
   * encoded as JSON `null`.
   */
  function ImagesJsonAsWritten(imageNames: seq<string>): (j: JsonNames)
    ensures j.JsonNull? <==> imageNames == []
    ensures j.JsonArray? ==> j.items == imageNames
  {
    if imageNames == [] then JsonNull else JsonArray(imageNames)
  }

  /**
   * Over every listing, the answer as written differs from the corrected one
   * exactly when no entry of the directory is an image file.
   */
  lemma AsWrittenDiffersExactlyWhenNoImage(files: seq<DirEntry>)
    ensures (ImagesJsonAsWritten(FilterImages(files)) != ImagesJson(FilterImages(files)))
            <==> (forall e :: e in files ==> !IsImageEntry(e))
  {
    var names := FilterImages(files);
    if names != [] {
      FilterMembership(files, names[0]);
    } else {
      forall e | e in files ensures !IsImageEntry(e) {
        FilterMembership(files, e.name);
      }
    }
  }

  /** The `images` field with the slice made non-nil (`[]string{}`): always an array. */
  function ImagesJson(imageNames: seq<string>): (j: JsonNames)
    ensures j.JsonArray? && j.items == imageNames
  {
    JsonArray(imageNames)
  }

  /** `GET /api/images`: a failed directory read, or the array of image names. */
  method GetImages(listing: Option<seq<DirEntry>>) returns (r: ListResponse)
    ensures listing.None? ==> r == ReadDirFailed
    ensures listing.Some? ==> r == Listed(JsonArray(FilterImages(listing.value)))
  {
    if listing.None? {
      return ReadDirFailed;
    }
    var imageNames := CollectImageNames(listing.value);
    r := Listed(ImagesJson(imageNames));
  }

  /** Listing distributes over concatenation of listings: directory order is kept. */
  lemma {:induction false} FilterAppend(a: seq<DirEntry>, b: seq<DirEntry>)
    ensures FilterImages(a + b) == FilterImages(a) + FilterImages(b)
    decreases |b|
  {
    if b == [] {
      assert a + b == a;
    } else {
      var init := b[..|b| - 1];
      assert (a + b)[..|a + b| - 1] == a + init;
      FilterAppend(a, init);
    }
  }

  /** A name is listed exactly when some image file of the directory has it. */
  lemma {:induction false} FilterMembership(files: seq<DirEntry>, x: string)
    ensures x in FilterImages(files) <==> exists e :: e in files && IsImageEntry(e) && e.name == x
  {
    if files != [] {
      var init, last := files[..|files| - 1], files[|files| - 1];
      assert files == init + [last];
      FilterMembership(init, x);
      if x in FilterImages(init) {
        var e :| e in init && IsImageEntry(e) && e.name == x;
        assert e in files;
      }
    }
  }

  /** A name that only directories carry is never listed, whatever its extension. */
  lemma DirectoriesNeverListed(files: seq<DirEntry>, x: string)
    requires forall e :: e in files && e.name == x ==> e.isDir
    ensures x !in FilterImages(files)
  {
  }

  /** The listing is the directory's names with some left out and the rest in order. */
  lemma {:induction false} FilterIsSubsequence(files: seq<DirEntry>)
    ensures IsSubsequence(FilterImages(files), Names(files))
  {
    if files != [] {
      var init, last := files[..|files| - 1], files[|files| - 1];
      FilterIsSubsequence(init);
      var ys := Names(files);
      assert ys[..|ys| - 1] == Names(init);
      var xs := FilterImages(files);
      if IsImageEntry(last) {
        assert xs[..|xs| - 1] == FilterImages(init);
      } else {
        assert xs == FilterImages(init);
      }
    }
  }

  /** The extension test ignores case: names equal up to case are filtered alike. */
  lemma ExtensionTestIgnoresCase(a: string, b: string, isDir: bool)
    requires ToLower(a) == ToLower(b)
    ensures IsImageEntry(DirEntry(a, isDir)) == IsImageEntry(DirEntry(b, isDir))
  {
    ExtToLower(a);
    ExtToLower(b);
  }

  /** The upload size limit, 10 MiB. */
  const MaxUploadSize: int := 10 * 1024 * 1024

  /** The multipart form file named `image`. */
  datatype FormFile = FormFile(filename: string, size: int)

  /** Why an upload is refused. */
  datatype UploadError = NoFormFile | FileTooLarge | SaveFailed

  /**
   * The stored name: the decimal timestamp, '_', then the uploaded file's
   * base name. Cutting it at its first '_' gives both parts back.
   */
  function StoredName(timestamp: int, filename: string): (r: string)
    ensures FirstUnderscore(r) < |r| && IsDecimal(r[..FirstUnderscore(r)])
    ensures ParseInt(r[..FirstUnderscore(r)]) == timestamp
    ensures r[FirstUnderscore(r) + 1..] == Base(filename)
    ensures r[..FirstUnderscore(r)] == FormatInt(timestamp)
  {
    var stamp := FormatInt(timestamp);
    var r := stamp + "_" + Base(filename);
    FirstUnderscoreAfter(stamp, Base(filename));
    assert r[..|stamp|] == stamp && r[|stamp| + 1..] == Base(filename);
    FormatIntRoundTrip(timestamp);
    r
  }

  /**
   * `POST /api/upload`: `form` is the form file (absent when the request has
   * none), `nowNanos` the clock reading in nanoseconds and `saveSucceeds` the
   * outcome of writing the file. The answer is the stored name or the error.
   */
  function Upload(form: Option<FormFile>, nowNanos: int, saveSucceeds: bool): (r: Result<string, UploadError>)
    ensures form.None? ==> r == Failure(NoFormFile)
    ensures form.Some? && form.value.size > MaxUploadSize ==> r == Failure(FileTooLarge)
    ensures form.Some? && form.value.size <= MaxUploadSize && !saveSucceeds ==> r == Failure(SaveFailed)
    ensures r.Success? <==> form.Some? && form.value.size <= MaxUploadSize && saveSucceeds
    ensures r.Success? ==> r.value == StoredName(nowNanos, form.value.filename)
  {
    match form
    case None => Failure(NoFormFile)
    case Some(file) =>
      if file.size > MaxUploadSize then Failure(FileTooLarge)
      else
        var uniqueFileName := StoredName(nowNanos, file.filename);
        if !saveSucceeds then Failure(SaveFailed) else Success(uniqueFileName)
  }

  /** A file of exactly 10 MiB is accepted; one byte more is refused. */
  lemma UploadLimitBoundary(name: string, nowNanos: int)
    ensures Upload(Some(FormFile(name, 10485760)), nowNanos, true).Success?
    ensures Upload(Some(FormFile(name, 10485761)), nowNanos, true) == Failure(FileTooLarge)
  {
  }

  /** The position of the first '_' in `s` (|s| when there is none). */
  function FirstUnderscore(s: string): (k: nat)
    ensures k <= |s|
    ensures k < |s| ==> s[k] == '_'
    ensures '_' !in s[..k]
  {
    if s == [] || s[0] == '_' then 0 else 1 + FirstUnderscore(s[1..])
  }

  /** The first '_' of `a + "_" + r` is the one after `a` when `a` has none. */
  lemma {:induction false} FirstUnderscoreAfter(a: string, r: string)
    requires '_' !in a
    ensures FirstUnderscore(a + "_" + r) == |a|
  {
    if a != [] {
      assert (a + "_" + r)[1..] == a[1..] + "_" + r;
      FirstUnderscoreAfter(a[1..], r);
    }
  }

  /** Separating at the first '_' recovers both halves when the left half has none. */
  lemma SplitAtFirstUnderscore(a1: string, r1: string, a2: string, r2: string)
    requires '_' !in a1 && '_' !in a2
    requires a1 + "_" + r1 == a2 + "_" + r2
    ensures a1 == a2 && r1 == r2
  {
    var s := a1 + "_" + r1;
    FirstUnderscoreAfter(a1, r1);
    FirstUnderscoreAfter(a2, r2);
    assert a1 == s[..|a1|] == a2;
    assert r1 == s[|a1| + 1..] == r2;
  }

  /**
   * Stored names determine the timestamp and the base name: two uploads get
   * the same stored name only with equal timestamps and equal base names.
   */
  lemma StoredNameInjective(t1: int, f1: string, t2: int, f2: string)
    ensures StoredName(t1, f1) == StoredName(t2, f2) <==> t1 == t2 && Base(f1) == Base(f2)
  {
    if StoredName(t1, f1) == StoredName(t2, f2) {
      SplitAtFirstUnderscore(FormatInt(t1), Base(f1), FormatInt(t2), Base(f2));
      FormatIntInjective(t1, t2);
    }
  }
}
