/** `atob`: the forgiving base64 decoder of the WHATWG Infra standard
    ("forgiving-base64 decode") over the alphabet of section 4 of RFC 4648,
    together with the RFC 4648 encoder it inverts. */
module Base64 {
  import opened Common

  newtype byte = x: int | 0 <= x < 256

  /** The whitespace the forgiving decoder removes: tab, line feed, form feed,
      carriage return and space (not the vertical tab). */
  predicate IsAsciiWhitespace(c: char) {
    c == '\t' || c == '\n' || c == '\U{000C}' || c == '\r' || c == ' '
  }

  predicate InAlphabet(c: char) {
    ('A' <= c <= 'Z') || ('a' <= c <= 'z') || ('0' <= c <= '9') || c == '+' || c == '/'
  }

  /** The character of a 6-bit value. */
  function CharOf(v: int): (c: char)
    requires 0 <= v < 64
    ensures InAlphabet(c)
  {
    if v < 26 then ('A' as int + v) as char
    else if v < 52 then ('a' as int + v - 26) as char
    else if v < 62 then ('0' as int + v - 52) as char
    else if v == 62 then '+'
    else '/'
  }

  /** The 6-bit value of an alphabet character. */
  function ValueOf(c: char): (v: int)
    requires InAlphabet(c)
    ensures 0 <= v < 64
    ensures CharOf(v) == c
  {
    if 'A' <= c <= 'Z' then c as int - 'A' as int
    else if 'a' <= c <= 'z' then c as int - 'a' as int + 26
    else if '0' <= c <= '9' then c as int - '0' as int + 52
    else if c == '+' then 62
    else 63
  }

  lemma ValueOfCharOf(v: int)
    requires 0 <= v < 64
    ensures ValueOf(CharOf(v)) == v
  {
  }

  lemma GroupLengthMod(n: nat)
    ensures (n + 4) % 4 == n % 4
  {
  }

  lemma TripleLengthMod(n: nat)
    ensures (n + 3) % 3 == n % 3
  {
  }

  /** Step 1: remove every ASCII whitespace character. */
  function StripWhitespace(s: string): (r: string)
    ensures forall i :: 0 <= i < |r| ==> !IsAsciiWhitespace(r[i])
    ensures (forall i :: 0 <= i < |s| ==> !IsAsciiWhitespace(s[i])) ==> r == s
  {
    if s == [] then []
    else if IsAsciiWhitespace(s[0]) then StripWhitespace(s[1..])
    else [s[0]] + StripWhitespace(s[1..])
  }

  /** Step 2: when the length is a multiple of four, drop one or two
      trailing `=`. */
  function StripPadding(s: string): (r: string)
    ensures |s| % 4 == 0 && |s| >= 2 && s[|s| - 2..] == "==" ==> r == s[..|s| - 2]
    ensures |s| % 4 == 0 && |s| >= 1 && s[|s| - 1] == '=' && !(|s| >= 2 && s[|s| - 2] == '=') ==> r == s[..|s| - 1]
    ensures (|s| % 4 != 0 || s == [] || s[|s| - 1] != '=') ==> r == s
  {
    if |s| % 4 == 0 && |s| >= 2 && s[|s| - 2..] == "==" then s[..|s| - 2]
    else if |s| % 4 == 0 && |s| >= 1 && s[|s| - 1] == '=' then s[..|s| - 1]
    else s
  }

  predicate AllInAlphabet(s: string) {
    forall i :: 0 <= i < |s| ==> InAlphabet(s[i])
  }

  /** The three bytes of a full group of four characters. */
  function DecodeGroupOf(c0: char, c1: char, c2: char, c3: char): (r: seq<byte>)
    requires InAlphabet(c0) && InAlphabet(c1) && InAlphabet(c2) && InAlphabet(c3)
    ensures |r| == 3
  {
    [(ValueOf(c0) * 4 + ValueOf(c1) / 16) as byte,
     (ValueOf(c1) % 16 * 16 + ValueOf(c2) / 4) as byte,
     (ValueOf(c2) % 4 * 64 + ValueOf(c3)) as byte]
  }

  /** The bytes of a final partial group: two characters give one byte and
      three give two, the left-over bits being dropped. */
  function DecodeTailOf(s: string): (r: seq<byte>)
    requires AllInAlphabet(s) && (|s| == 0 || |s| == 2 || |s| == 3)
    ensures |r| == (if |s| == 0 then 0 else |s| - 1)
  {
    if |s| == 0 then []
    else if |s| == 2 then [(ValueOf(s[0]) * 4 + ValueOf(s[1]) / 16) as byte]
    else
      [(ValueOf(s[0]) * 4 + ValueOf(s[1]) / 16) as byte,
       (ValueOf(s[1]) % 16 * 16 + ValueOf(s[2]) / 4) as byte]
  }

  /** Step 5: the bytes of a sequence of alphabet characters, group by group. */
  function DecodeChars(s: string): (r: seq<byte>)
    requires AllInAlphabet(s) && |s| % 4 != 1
  {
    if |s| < 4 then DecodeTailOf(s)
    else DecodeGroupOf(s[0], s[1], s[2], s[3]) + DecodeChars(s[4..])
  }

  /** `atob(s)` as bytes: `None` where `atob` throws `InvalidCharacterError`. */
  function Decode(s: string): (r: Option<seq<byte>>)
    ensures r.Some? <==> var t := StripPadding(StripWhitespace(s)); |t| % 4 != 1 && AllInAlphabet(t)
  {
    var t := StripPadding(StripWhitespace(s));
    if |t| % 4 == 1 then None
    else if !AllInAlphabet(t) then None
    else Some(DecodeChars(t))
  }

  /** The binary string `atob` returns: one character per byte. */
  function Atob(s: string): (r: Option<string>)
    ensures r.Some? <==> Decode(s).Some?
    ensures r.Some? ==> |r.value| == |Decode(s).value|
    ensures r.Some? ==> forall i :: 0 <= i < |r.value| ==> r.value[i] as int == Decode(s).value[i] as int
  {
    match Decode(s)
    case None => None
    case Some(b) => Some(seq(|b|, i requires 0 <= i < |b| => b[i] as int as char))
  }

  /** The encoding without its padding. */
  function EncodeBody(b: seq<byte>): (r: string)
    ensures AllInAlphabet(r)
    ensures |r| % 4 == (if |b| % 3 == 0 then 0 else |b| % 3 + 1)
  {
    if |b| == 0 then ""
    else if |b| == 1 then
      [CharOf(b[0] as int / 4), CharOf(b[0] as int % 4 * 16)]
    else if |b| == 2 then
      [CharOf(b[0] as int / 4), CharOf(b[0] as int % 4 * 16 + b[1] as int / 16),
       CharOf(b[1] as int % 16 * 4)]
    else
      [CharOf(b[0] as int / 4), CharOf(b[0] as int % 4 * 16 + b[1] as int / 16),
       CharOf(b[1] as int % 16 * 4 + b[2] as int / 64), CharOf(b[2] as int % 64)]
      + (GroupLengthMod(|EncodeBody(b[3..])|); TripleLengthMod(|b| - 3); EncodeBody(b[3..]))
  }

  /** The `=` characters that complete the last group of `n` bytes. */
  function PaddingOf(n: nat): (p: string)
    ensures |p| == (if n % 3 == 0 then 0 else 3 - n % 3)
  {
    if n % 3 == 1 then "==" else if n % 3 == 2 then "=" else ""
  }

  /** The padded RFC 4648 encoding of `b`: the body followed by `=` up to a
      multiple of four characters. */
  function Encode(b: seq<byte>): (r: string)
    ensures |r| % 4 == 0
  {
    PaddedLength(|EncodeBody(b)|, |b|);
    EncodeBody(b) + PaddingOf(|b|)
  }

  lemma PaddedLength(m: nat, n: nat)
    requires m % 4 == (if n % 3 == 0 then 0 else n % 3 + 1)
    ensures (m + (if n % 3 == 0 then 0 else 3 - n % 3)) % 4 == 0
  {
  }

  lemma DecodeGroup(b0: int, b1: int, b2: int)
    requires 0 <= b0 < 256 && 0 <= b1 < 256 && 0 <= b2 < 256
    ensures ValueOf(CharOf(b0 / 4)) * 4 + ValueOf(CharOf(b0 % 4 * 16 + b1 / 16)) / 16 == b0
    ensures ValueOf(CharOf(b0 % 4 * 16 + b1 / 16)) % 16 * 16 + ValueOf(CharOf(b1 % 16 * 4 + b2 / 64)) / 4 == b1
    ensures ValueOf(CharOf(b1 % 16 * 4 + b2 / 64)) % 4 * 64 + ValueOf(CharOf(b2 % 64)) == b2
  {
    ValueOfCharOf(b0 / 4);
    ValueOfCharOf(b0 % 4 * 16 + b1 / 16);
    ValueOfCharOf(b1 % 16 * 4 + b2 / 64);
    ValueOfCharOf(b2 % 64);
  }

  lemma DecodeTail(b0: int, b1: int)
    requires 0 <= b0 < 256 && 0 <= b1 < 256
    ensures ValueOf(CharOf(b0 / 4)) * 4 + ValueOf(CharOf(b0 % 4 * 16)) / 16 == b0
    ensures ValueOf(CharOf(b0 / 4)) * 4 + ValueOf(CharOf(b0 % 4 * 16 + b1 / 16)) / 16 == b0
    ensures ValueOf(CharOf(b0 % 4 * 16 + b1 / 16)) % 16 * 16 + ValueOf(CharOf(b1 % 16 * 4)) / 4 == b1
  {
    ValueOfCharOf(b0 / 4);
    ValueOfCharOf(b0 % 4 * 16);
    ValueOfCharOf(b0 % 4 * 16 + b1 / 16);
    ValueOfCharOf(b1 % 16 * 4);
  }

  /** The four characters encoding the three bytes starting at `b[0]`. */
  function Quad(b0: byte, b1: byte, b2: byte): (r: string)
    ensures |r| == 4 && AllInAlphabet(r)
  {
    [CharOf(b0 as int / 4), CharOf(b0 as int % 4 * 16 + b1 as int / 16),
     CharOf(b1 as int % 16 * 4 + b2 as int / 64), CharOf(b2 as int % 64)]
  }

  lemma AlphabetConcat(a: string, b: string)
    requires AllInAlphabet(a) && AllInAlphabet(b)
    ensures AllInAlphabet(a + b)
  {
  }

  lemma DecodeCharsStep(s: string)
    requires AllInAlphabet(s) && |s| % 4 != 1 && |s| >= 4
    ensures AllInAlphabet(s[4..])
    ensures DecodeChars(s) == DecodeGroupOf(s[0], s[1], s[2], s[3]) + DecodeChars(s[4..])
  {
  }

  /** A full group decodes to the three bytes it encodes. */
  lemma DecodeGroupOfQuad(b0: byte, b1: byte, b2: byte)
    ensures var q := Quad(b0, b1, b2); DecodeGroupOf(q[0], q[1], q[2], q[3]) == [b0, b1, b2]
  {
    DecodeGroup(b0 as int, b1 as int, b2 as int);
  }

  lemma DecodeQuad(b0: byte, b1: byte, b2: byte, rest: string)
    requires AllInAlphabet(rest) && |rest| % 4 != 1
    ensures AllInAlphabet(Quad(b0, b1, b2) + rest) && |Quad(b0, b1, b2) + rest| % 4 == |rest| % 4
    ensures DecodeChars(Quad(b0, b1, b2) + rest) == [b0, b1, b2] + DecodeChars(rest)
  {
    var q := Quad(b0, b1, b2);
    var s := q + rest;
    AlphabetConcat(q, rest);
    assert s[..4] == q && s[4..] == rest;
    GroupLengthMod(|rest|);
    DecodeCharsStep(s);
    DecodeGroupOfQuad(b0, b1, b2);
  }

  lemma EncodeBodyStep(b: seq<byte>)
    requires |b| >= 3
    ensures EncodeBody(b) == Quad(b[0], b[1], b[2]) + EncodeBody(b[3..])
  {
  }

  /** The two characters encoding one final byte decode to it. */
  lemma DecodeTailOfOne(b: seq<byte>)
    requires |b| == 1
    ensures AllInAlphabet(EncodeBody(b)) && |EncodeBody(b)| == 2
    ensures DecodeTailOf(EncodeBody(b)) == b
  {
    DecodeTail(b[0] as int, 0);
  }

  /** The three characters encoding two final bytes decode to them. */
  lemma DecodeTailOfTwo(b: seq<byte>)
    requires |b| == 2
    ensures AllInAlphabet(EncodeBody(b)) && |EncodeBody(b)| == 3
    ensures DecodeTailOf(EncodeBody(b)) == b
  {
    DecodeTail(b[0] as int, b[1] as int);
  }

  lemma DecodeShort(s: string)
    requires AllInAlphabet(s) && (|s| == 0 || |s| == 2 || |s| == 3)
    ensures DecodeChars(s) == DecodeTailOf(s)
  {
  }

  lemma DecodeBodyOfOne(b: seq<byte>)
    requires |b| == 1
    ensures DecodeChars(EncodeBody(b)) == b
  {
    DecodeTailOfOne(b);
    DecodeShort(EncodeBody(b));
  }

  lemma DecodeBodyOfTwo(b: seq<byte>)
    requires |b| == 2
    ensures DecodeChars(EncodeBody(b)) == b
  {
    DecodeTailOfTwo(b);
    DecodeShort(EncodeBody(b));
  }

  /** Decoding the body of an encoding gives the bytes back. */
  lemma {:induction false} DecodeEncodeBody(b: seq<byte>)
    ensures DecodeChars(EncodeBody(b)) == b
  {
    if |b| == 1 {
      DecodeBodyOfOne(b);
    } else if |b| == 2 {
      DecodeBodyOfTwo(b);
    } else if |b| >= 3 {
      EncodeBodyStep(b);
      DecodeQuad(b[0], b[1], b[2], EncodeBody(b[3..]));
      DecodeEncodeBody(b[3..]);
      assert b == [b[0], b[1], b[2]] + b[3..];
    }
  }

  lemma EncodeHasNoWhitespace(b: seq<byte>)
    ensures forall i :: 0 <= i < |Encode(b)| ==> !IsAsciiWhitespace(Encode(b)[i])
  {
    var e := Encode(b);
    var body := EncodeBody(b);
    forall i | 0 <= i < |e|
      ensures !IsAsciiWhitespace(e[i])
    {
      if i < |body| {
        assert e[i] == body[i];
      }
    }
  }

  /** Round trip: `atob` of an RFC 4648 padded encoding gives the bytes back. */
  lemma DecodeEncode(b: seq<byte>)
    ensures Decode(Encode(b)) == Some(b)
  {
    var e := Encode(b);
    var body := EncodeBody(b);
    EncodeHasNoWhitespace(b);
    assert StripWhitespace(e) == e;
    var t := StripPadding(e);
    if |b| % 3 == 1 {
      assert e[|e| - 2..] == "==";
      assert t == e[..|e| - 2];
    } else if |b| % 3 == 2 {
      assert e[|e| - 1] == '=';
      assert e[|e| - 2] == body[|body| - 1];
      assert t == e[..|e| - 1];
    } else if |e| > 0 {
      assert e[|e| - 1] == body[|body| - 1];
    }
    assert t == body;
    DecodeEncodeBody(b);
  }
}
