/** `parseSelfieDataUrl` of the check-in page: splits the captured
    `data:image/...;base64,...` URL into its MIME type, a file extension and
    the decoded bytes. */
module Selfie {
  import opened Common
  import opened Text
  import opened Base64

  /** The characters of `[a-zA-Z+\-\.]`. */
  predicate MimeChar(c: char) {
    ('a' <= c <= 'z') || ('A' <= c <= 'Z') || c == '+' || c == '-' || c == '.'
  }

  predicate AllMimeChars(s: string) {
    forall i :: 0 <= i < |s| ==> MimeChar(s[i])
  }

  /** The characters `.` of a regular expression without the `s` flag does not
      match. */
  predicate IsLineTerminator(c: char) {
    c == '\n' || c == '\r' || c == '\U{2028}' || c == '\U{2029}'
  }

  predicate NoLineTerminator(s: string) {
    forall i :: 0 <= i < |s| ==> !IsLineTerminator(s[i])
  }

  const DataPrefix := "data:image/"
  const Base64Marker := ";base64,"

  /** The length of the longest prefix of `s` made of MIME characters. */
  function MimeRun(s: string): (n: nat)
    ensures n <= |s| && AllMimeChars(s[..n])
    ensures n == |s| || !MimeChar(s[n])
  {
    if s == [] || !MimeChar(s[0]) then 0
    else
      var n := 1 + MimeRun(s[1..]);
      assert forall i :: 1 <= i < n ==> s[..n][i] == s[1..][..n - 1][i - 1];
      n
  }

  /** The regular expression `^data:(image\/[a-zA-Z+\-\.]+);base64,(.+)$` as
      a property of the URL and its two captured groups: the first group is
      `image/` and the non-empty MIME subtype `sub`. */
  ghost predicate DataUrlPattern(url: string, mimeType: string, payload: string) {
    exists sub :: IsDataUrlOf(url, sub, payload) && mimeType == "image/" + sub
  }

  predicate IsDataUrlOf(url: string, sub: string, payload: string) {
    |sub| > 0 && AllMimeChars(sub) && |payload| > 0 && NoLineTerminator(payload) &&
    url == DataPrefix + sub + Base64Marker + payload
  }

  /** `dataUrl.match(...)`: the MIME type and the payload, or `None` when the
      URL does not match. As `;` is not a MIME character, the greedy class
      stops right before the marker or the match fails. */
  function MatchDataUrl(url: string): (r: Option<(string, string)>)
    ensures !StartsWith(url, DataPrefix) ==> r.None?
    ensures r.Some? ==> |r.value.0| > |"image/"| && r.value.0[..|"image/"|] == "image/" && AllMimeChars(r.value.0[|"image/"|..])
    ensures r.Some? ==> |r.value.1| > 0 && NoLineTerminator(r.value.1)
    ensures r.Some? ==> url == DataPrefix + r.value.0[|"image/"|..] + Base64Marker + r.value.1
  {
    if !StartsWith(url, DataPrefix) then None
    else
      var rest := url[|DataPrefix|..];
      var n := MimeRun(rest);
      var tail := rest[n..];
      if n == 0 || !StartsWith(tail, Base64Marker) then None
      else
        var payload := tail[|Base64Marker|..];
        if payload == [] || !NoLineTerminator(payload) then None
        else Some(("image/" + rest[..n], payload))
  }

  /** Every match is a parse by the pattern. */
  lemma MatchDataUrlSound(url: string)
    requires MatchDataUrl(url).Some?
    ensures DataUrlPattern(url, MatchDataUrl(url).value.0, MatchDataUrl(url).value.1)
  {
    var rest := url[|DataPrefix|..];
    var n := MimeRun(rest);
    var sub := rest[..n];
    var payload := rest[n..][|Base64Marker|..];
    assert url == DataPrefix + rest;
    assert rest == sub + Base64Marker + payload;
    assert IsDataUrlOf(url, sub, payload);
  }

  /** The match of a URL built from a subtype and a payload. */
  lemma MatchOfParts(sub: string, payload: string)
    requires IsDataUrlOf(DataPrefix + sub + Base64Marker + payload, sub, payload)
    ensures MatchDataUrl(DataPrefix + sub + Base64Marker + payload) == Some(("image/" + sub, payload))
  {
    var tail := Base64Marker + payload;
    var rest := sub + tail;
    var url := DataPrefix + rest;
    assert DataPrefix + sub + Base64Marker + payload == url;
    assert url[..|DataPrefix|] == DataPrefix;
    assert url[|DataPrefix|..] == rest;
    MimeRunOfPrefix(sub, tail);
    assert rest[..|sub|] == sub;
    assert rest[|sub|..] == tail;
    assert tail[..|Base64Marker|] == Base64Marker;
    assert tail[|Base64Marker|..] == payload;
  }

  /** Every parse by the pattern is the match: the pattern has exactly one
      parse per URL and `MatchDataUrl` finds it. */
  lemma MatchDataUrlComplete(url: string, mimeType: string, payload: string)
    requires DataUrlPattern(url, mimeType, payload)
    ensures MatchDataUrl(url) == Some((mimeType, payload))
  {
    var sub :| IsDataUrlOf(url, sub, payload) && mimeType == "image/" + sub;
    MatchOfParts(sub, payload);
  }

  /** The MIME characters run up to the first `;`. */
  lemma {:induction false} MimeRunOfPrefix(sub: string, after: string)
    requires AllMimeChars(sub) && after != [] && after[0] == ';'
    ensures MimeRun(sub + after) == |sub|
  {
    if sub != [] {
      assert (sub + after)[1..] == sub[1..] + after;
      MimeRunOfPrefix(sub[1..], after);
    }
  }

  /** `mimeType.split("/")[1]` for `image/<sub>`, where `sub` has no `/`. */
  lemma SplitMimeType(sub: string)
    requires AllMimeChars(sub)
    ensures Split("image/" + sub, '/') == ["image", sub]
  {
    var m := "image/" + sub;
    assert m[5] == '/' && '/' !in m[..5];
    assert IndexOf(m, '/') == 5;
    assert m[..5] == "image";
    assert m[6..] == sub;
    assert '/' !in sub by {
      forall i | 0 <= i < |sub| ensures sub[i] != '/' { assert MimeChar(sub[i]); }
    }
    assert Split(sub, '/') == [sub];
  }

  /** `mimeType.split("/")[1].split("+")[0] || "jpg"` */
  function ExtensionOf(sub: string): (ext: string)
    ensures ext != []
    ensures '+' !in sub && sub != [] ==> ext == sub
    ensures '+' in sub && sub[0] != '+' ==> ext == sub[..IndexOf(sub, '+')]
    ensures (sub == [] || sub[0] == '+') ==> ext == "jpg"
  {
    var first := Split(sub, '+')[0];
    if first == [] then "jpg" else first
  }

  datatype SelfieError = InvalidDataUrl | InvalidBase64

  /** The message of the `Error` thrown for a URL that does not match. */
  const InvalidDataUrlMessage := "Invalid selfie data URL."

  /** `ParsedSelfie`; the `Blob` is its bytes together with `contentType`. */
  datatype ParsedSelfie = ParsedSelfie(bytes: seq<byte>, contentType: string, extension: string)

  /** `new Uint8Array(n)` filled with `binary.charCodeAt(i)`: assignment keeps
      the low eight bits. */
  function Uint8Of(binary: string): (b: seq<byte>)
    ensures |b| == |binary|
  {
    seq(|binary|, i requires 0 <= i < |binary| => (binary[i] as int % 256) as byte)
  }

  /** What `parseSelfieDataUrl` returns or throws. */
  function SelfieSpec(url: string): (r: Result<ParsedSelfie, SelfieError>)
    ensures r.Failure? && r.error == InvalidDataUrl <==> MatchDataUrl(url).None?
    ensures r.Success? ==> MatchDataUrl(url).Some? && r.value.contentType == MatchDataUrl(url).value.0
  {
    var m := MatchDataUrl(url);
    if m.None? then Failure(InvalidDataUrl)
    else
      var decoded := Atob(m.value.1);
      if decoded.None? then Failure(InvalidBase64)
      else Success(ParsedSelfie(Uint8Of(decoded.value), m.value.0, ExtensionOf(m.value.0[6..])))
  }

  /** The `Uint8Array` of `parseSelfieDataUrl`, filled one character at a
      time. */
  method CopyBytes(binary: string) returns (b: seq<byte>)
    ensures b == Uint8Of(binary)
  {
    var bytes := new byte[|binary|];
    var i := 0;
    while i < |binary|
      invariant 0 <= i <= |binary|
      invariant bytes[..i] == Uint8Of(binary)[..i]
    {
      bytes[i] := (binary[i] as int % 256) as byte;
      i := i + 1;
    }
    assert bytes[..] == Uint8Of(binary);
    b := bytes[..];
  }

  /** `parseSelfieDataUrl(dataUrl)` */
  method ParseSelfieDataUrl(dataUrl: string) returns (r: Result<ParsedSelfie, SelfieError>)
    ensures r == SelfieSpec(dataUrl)
  {
    var m := MatchDataUrl(dataUrl);
    if m.None? {
      return Failure(InvalidDataUrl);
    }
    var mimeType := m.value.0;
    var extension := ExtensionOf(mimeType[6..]);
    var decoded := Atob(m.value.1);
    if decoded.None? {
      return Failure(InvalidBase64);
    }
    var bytes := CopyBytes(decoded.value);
    return Success(ParsedSelfie(bytes, mimeType, extension));
  }

  /** The bytes of a parsed selfie are exactly the base64 payload decoded: the
      eight-bit truncation never loses anything, as `atob` yields characters
      below 256. */
  lemma SelfieBytesAreDecoded(url: string)
    requires SelfieSpec(url).Success?
    ensures Decode(MatchDataUrl(url).value.1) == Some(SelfieSpec(url).value.bytes)
  {
    var payload := MatchDataUrl(url).value.1;
    assert SelfieSpec(url).value.bytes == Uint8Of(Atob(payload).value);
    CopyLosesNothing(payload);
  }

  /** Copying the binary string of a successful `atob` into bytes gives the
      decoded bytes. */
  lemma CopyLosesNothing(payload: string)
    requires Atob(payload).Some?
    ensures Decode(payload) == Some(Uint8Of(Atob(payload).value))
  {
    var b := Decode(payload).value;
    var binary := Atob(payload).value;
    var got := Uint8Of(binary);
    assert |got| == |b|;
    forall i | 0 <= i < |b| ensures got[i] == b[i] {
      assert binary[i] as int == b[i] as int;
    }
    assert got == b;
  }

  /** The URL fails to parse as a data URL exactly when it does not match
      the pattern. */
  lemma InvalidUrlIffNoPattern(url: string)
    ensures SelfieSpec(url) == Failure(InvalidDataUrl) <==>
            forall mimeType, payload :: !DataUrlPattern(url, mimeType, payload)
  {
    if MatchDataUrl(url).Some? {
      MatchDataUrlSound(url);
    }
    forall mimeType, payload | DataUrlPattern(url, mimeType, payload)
      ensures MatchDataUrl(url).Some?
    {
      MatchDataUrlComplete(url, mimeType, payload);
    }
  }

  lemma EncodeHasNoLineTerminator(b: seq<byte>)
    ensures NoLineTerminator(Encode(b))
  {
    var e := Encode(b);
    var body := EncodeBody(b);
    forall i | 0 <= i < |e|
      ensures !IsLineTerminator(e[i])
    {
      if i < |body| {
        assert e[i] == body[i];
      }
    }
  }

  lemma EncodeNonEmpty(b: seq<byte>)
    requires |b| > 0
    ensures |Encode(b)| > 0
  {
  }

  /** Round trip: the data URL of non-empty bytes, as a camera capture
      produces it, parses back to the same bytes, its MIME type and its
      extension. */
  lemma ParseOfEncoded(sub: string, b: seq<byte>)
    requires |sub| > 0 && AllMimeChars(sub) && |b| > 0
    ensures SelfieSpec(DataPrefix + sub + Base64Marker + Encode(b)) ==
            Success(ParsedSelfie(b, "image/" + sub, ExtensionOf(sub)))
  {
    var payload := Encode(b);
    var url := DataPrefix + sub + Base64Marker + payload;
    EncodeHasNoLineTerminator(b);
    EncodeNonEmpty(b);
    MatchOfParts(sub, payload);
    var mime := "image/" + sub;
    assert mime[6..] == sub;
    DecodeEncode(b);
    assert SelfieSpec(url).Success?;
    SelfieBytesAreDecoded(url);
  }

  /** The JPEG capture of the page: `image/jpeg` gives the extension `jpeg`,
      and `image/svg+xml` gives `svg`. */
  lemma ExtensionExamples()
    ensures ExtensionOf("jpeg") == "jpeg"
    ensures ExtensionOf("svg+xml") == "svg"
    ensures ExtensionOf("+xml") == "jpg"
  {
    assert IndexOf("svg+xml", '+') == 3;
    assert "svg+xml"[..3] == "svg";
  }
}
