/** The selfie bucket as the read-side pages see it: a stored value is a
    URL or an object path, and a path is looked up as a public URL first and
    as a ten-minute signed URL second. */
module SelfieStorage {
  import opened Common
  import opened Text

  const Bucket := "visitor-selfies"
  const BucketPrefix := "visitor-selfies/"
  /** `60 * 10` seconds. */
  const SignedUrlSeconds := 600

  /** `raw.replace(/^\/+/, "").replace(/^visitor-selfies\//, "")` */
  function StoragePath(raw: string): (p: string)
    ensures exists k :: 0 <= k <= |raw| && (forall i :: 0 <= i < k ==> raw[i] == '/') &&
                        (k == |raw| || raw[k] != '/') && p == StripPrefix(raw[k..], BucketPrefix)
  {
    var rest := StripLeading(raw, '/');
    var k := |raw| - |rest|;
    StripLeadingIsSuffix(raw, '/');
    assert rest == raw[k..];
    StripPrefix(rest, BucketPrefix)
  }

  /** What the bucket answers for one path: the public URL (`None` when
      missing or empty), whether the signed-URL request failed, and the
      signed URL it returned. */
  datatype StorageAnswer = StorageAnswer(publicUrl: Option<string>, signedError: bool, signedUrl: Option<string>)

  /** The lookup of a normalised path. */
  function LookupUrl(a: StorageAnswer): (r: Option<string>)
    ensures a.publicUrl.Some? && a.publicUrl.value != "" ==> r == a.publicUrl
    ensures (a.publicUrl.None? || a.publicUrl.value == "") && a.signedError ==> r.None?
    ensures (a.publicUrl.None? || a.publicUrl.value == "") && !a.signedError ==> r == a.signedUrl
  {
    if a.publicUrl.Some? && a.publicUrl.value != "" then a.publicUrl
    else if a.signedError then None
    else a.signedUrl
  }

  predicate IsHttpUrl(raw: string) {
    StartsWith(raw, "http://") || StartsWith(raw, "https://")
  }

  /** A stored value that names nothing: `null`, `undefined`, empty or blank. */
  predicate NoSelfieValue(v: Option<string>) {
    v.None? || IsBlank(v.value)
  }

  /** The path the check-in page stores, `selfies/<uuid>.<extension>`, is
      its own storage path. */
  lemma StoragePathOfStoredPath(path: string)
    requires StartsWith(path, "selfies/")
    ensures StoragePath(path) == path
  {
    assert path[0] == 's';
  }

  /** A bucket-qualified path with leading slashes loses both. */
  lemma StoragePathOfQualified(path: string)
    requires path == [] || path[0] != '/'
    ensures StoragePath("/" + BucketPrefix + path) == path
  {
    var raw := "/" + BucketPrefix + path;
    assert raw[1..] == BucketPrefix + path;
    assert StripLeading(raw, '/') == StripLeading(raw[1..], '/');
    assert StripLeading(raw[1..], '/') == raw[1..];
    assert (BucketPrefix + path)[..|BucketPrefix|] == BucketPrefix;
  }
}
