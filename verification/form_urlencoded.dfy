/**
 * The `application/x-www-form-urlencoded` format behind `URLSearchParams`
 * (section 5 of the WHATWG URL Standard): the serializer that
 * `URLSearchParams.toString()` runs and the parser that fills the search
 * parameters a page reads, with the UTF-8 encoder and decoder (section 9 of
 * the WHATWG Encoding Standard) that both go through.
 */
module FormUrlencoded {
  import opened Wrappers
  import opened Strings

  type Byte = x: int | 0 <= x < 256

  /** The UTF-8 encoding of one code point: one to four bytes. */
  function Utf8Char(c: char): (r: seq<Byte>)
    ensures 1 <= |r| <= 4
    ensures c as int < 0x80 <==> |r| == 1
    ensures |r| == 1 ==> r[0] == c as int
  {
    var n := c as int;
    if n < 0x80 then [n]
    else if n < 0x800 then [0xC0 + n / 64, 0x80 + n % 64]
    else if n < 0x10000 then [0xE0 + n / 64 / 64, 0x80 + n / 64 % 64, 0x80 + n % 64]
    else [0xF0 + n / 64 / 64 / 64, 0x80 + n / 64 / 64 % 64, 0x80 + n / 64 % 64, 0x80 + n % 64]
  }

  /** UTF-8 encode: the code points' encodings, one after the other. */
  function Utf8Encode(s: string): (r: seq<Byte>)
    ensures |r| >= |s|
    decreases |s|
  {
    if |s| == 0 then [] else Utf8Char(s[0]) + Utf8Encode(s[1..])
  }

  lemma {:induction false} Utf8EncodeConcat(a: string, b: string)
    ensures Utf8Encode(a + b) == Utf8Encode(a) + Utf8Encode(b)
    decreases |a|
  {
    if |a| > 0 {
      assert (a + b)[0] == a[0] && (a + b)[1..] == a[1..] + b;
      Utf8EncodeConcat(a[1..], b);
      var h := Utf8Char(a[0]);
      assert Utf8Encode(a + b) == h + Utf8Encode(a[1..] + b);
      assert Utf8Encode(a) == h + Utf8Encode(a[1..]);
      assert h + (Utf8Encode(a[1..]) + Utf8Encode(b)) == (h + Utf8Encode(a[1..])) + Utf8Encode(b);
    } else {
      assert a + b == b;
    }
  }

  const Replacement: char := '\U{FFFD}'

  predicate IsCont(b: Byte)
  {
    0x80 <= b <= 0xBF
  }

  /**
   * One step of the UTF-8 decoder: the code point read at the front of `b`
   * and the number of bytes it takes. A lead byte that cannot start a
   * sequence, or a sequence cut short, yields U+FFFD; the byte that cut it
   * short is not consumed and is read again. The bounds on the first
   * continuation byte exclude overlong forms, surrogates and code points
   * above U+10FFFF.
   */
  function DecodeOne(b: seq<Byte>): (r: (char, nat))
    requires |b| > 0
    ensures 1 <= r.1 <= |b| && r.1 <= 4
    ensures b[0] < 0x80 ==> r == (b[0] as char, 1)
  {
    var x: int := b[0];
    if x < 0x80 then (x as char, 1)
    else if 0xC2 <= x <= 0xDF then
      if |b| < 2 || !IsCont(b[1]) then (Replacement, 1)
      else (((x - 0xC0) * 64 + (b[1] as int - 0x80)) as char, 2)
    else if 0xE0 <= x <= 0xEF then
      var lo := if x == 0xE0 then 0xA0 else 0x80;
      var hi := if x == 0xED then 0x9F else 0xBF;
      if |b| < 2 || !(lo <= b[1] <= hi) then (Replacement, 1)
      else if |b| < 3 || !IsCont(b[2]) then (Replacement, 2)
      else (((x - 0xE0) * 4096 + (b[1] as int - 0x80) * 64 + (b[2] as int - 0x80)) as char, 3)
    else if 0xF0 <= x <= 0xF4 then
      var lo := if x == 0xF0 then 0x90 else 0x80;
      var hi := if x == 0xF4 then 0x8F else 0xBF;
      if |b| < 2 || !(lo <= b[1] <= hi) then (Replacement, 1)
      else if |b| < 3 || !IsCont(b[2]) then (Replacement, 2)
      else if |b| < 4 || !IsCont(b[3]) then (Replacement, 3)
      else (((x - 0xF0) * 0x40000 + (b[1] as int - 0x80) * 4096 + (b[2] as int - 0x80) * 64 + (b[3] as int - 0x80)) as char, 4)
    else (Replacement, 1)
  }

  /** UTF-8 decode without BOM: every byte sequence decodes, errors as U+FFFD. */
  function Utf8Decode(b: seq<Byte>): (r: string)
    ensures |r| <= |b|
    decreases |b|
  {
    if |b| == 0 then []
    else
      var (c, used) := DecodeOne(b);
      [c] + Utf8Decode(b[used..])
  }

  /** The decoder reads a code point's encoding back as that code point, and only its bytes. */
  lemma DecodeOneChar(c: char, rest: seq<Byte>)
    ensures DecodeOne(Utf8Char(c) + rest) == (c, |Utf8Char(c)|)
  {
    var n := c as int;
    var e := Utf8Char(c);
    var b := e + rest;
    var q1 := n / 64;
    var q2 := q1 / 64;
    var q3 := q2 / 64;
    assert n == q1 * 64 + n % 64;
    assert q1 == q2 * 64 + q1 % 64;
    assert q2 == q3 * 64 + q2 % 64;
    if n < 0x80 {
    } else if n < 0x800 {
      assert b[0] == 0xC0 + q1 && b[1] == 0x80 + n % 64;
    } else if n < 0x10000 {
      assert b[0] == 0xE0 + q2 && b[1] == 0x80 + q1 % 64 && b[2] == 0x80 + n % 64;
    } else {
      assert b[0] == 0xF0 + q3 && b[1] == 0x80 + q2 % 64 && b[2] == 0x80 + q1 % 64 && b[3] == 0x80 + n % 64;
    }
  }

  /** UTF-8 decoding undoes UTF-8 encoding. */
  lemma {:induction false} Utf8RoundTrip(s: string)
    ensures Utf8Decode(Utf8Encode(s)) == s
    decreases |s|
  {
    if |s| > 0 {
      var e := Utf8Char(s[0]);
      var rest := Utf8Encode(s[1..]);
      DecodeOneChar(s[0], rest);
      assert (e + rest)[|e|..] == rest;
      Utf8RoundTrip(s[1..]);
      assert s == [s[0]] + s[1..];
    }
  }

  /** ASCII text encodes byte for byte. */
  lemma {:induction false} AsciiEncode(s: string)
    requires forall k :: 0 <= k < |s| ==> s[k] as int < 0x80
    ensures |Utf8Encode(s)| == |s|
    ensures forall k :: 0 <= k < |s| ==> Utf8Encode(s)[k] == s[k] as int
    decreases |s|
  {
    if |s| > 0 {
      AsciiEncode(s[1..]);
      assert Utf8Encode(s) == [s[0] as int] + Utf8Encode(s[1..]);
    }
  }

  /** The bytes `URLSearchParams` writes as themselves: ASCII alphanumerics and `*`, `-`, `.`, `_`. */
  predicate Unreserved(b: Byte)
  {
    || 0x30 <= b <= 0x39 || 0x41 <= b <= 0x5A || 0x61 <= b <= 0x7A
    || b == 0x2A || b == 0x2D || b == 0x2E || b == 0x5F
  }

  /** An upper-case hexadecimal digit. */
  function HexDigit(d: int): (c: char)
    requires 0 <= d < 16
    ensures '0' <= c <= '9' || 'A' <= c <= 'F'
  {
    if d < 10 then ('0' as int + d) as char else ('A' as int + d - 10) as char
  }

  /** One byte of a name or value: a space as `+`, an unreserved byte as itself, any other as `%` and two upper-case hex digits. */
  function EncodeByte(b: Byte): (r: string)
  {
    if b == 0x20 then "+"
    else if Unreserved(b) then [b as char]
    else ['%', HexDigit(b / 16), HexDigit(b % 16)]
  }

  function EncodeBytes(bs: seq<Byte>): (r: string)
    decreases |bs|
  {
    if |bs| == 0 then "" else EncodeByte(bs[0]) + EncodeBytes(bs[1..])
  }

  /** The characters the serializer writes: ASCII alphanumerics, `*`, `-`, `.`, `_`, `+` and `%`. */
  predicate FormChar(c: char)
  {
    (c as int < 0x80 && Unreserved(c as int)) || c == '+' || c == '%'
  }

  lemma {:induction false} EncodeBytesChars(bs: seq<Byte>)
    ensures forall k :: 0 <= k < |EncodeBytes(bs)| ==> FormChar(EncodeBytes(bs)[k])
    decreases |bs|
  {
    if |bs| > 0 {
      EncodeBytesChars(bs[1..]);
      var h := EncodeByte(bs[0]);
      var t := EncodeBytes(bs[1..]);
      assert forall k :: 0 <= k < |h| ==> FormChar(h[k]);
      assert forall k :: 0 <= k < |h + t| ==> (h + t)[k] == if k < |h| then h[k] else t[k - |h|];
    }
  }

  /**
   * Percent-encode after UTF-8 encoding, with spaces as `+`: how
   * `URLSearchParams` writes each name and each value.
   */
  function FormEncode(s: string): (r: string)
    ensures forall k :: 0 <= k < |r| ==> FormChar(r[k])
    ensures '&' !in r && '=' !in r && '?' !in r
  {
    var bs := Utf8Encode(s);
    EncodeBytesChars(bs);
    EncodeBytes(bs)
  }

  function SerializePair(p: (string, string)): (r: string)
  {
    FormEncode(p.0) + "=" + FormEncode(p.1)
  }

  /** `URLSearchParams.toString()`: the encoded pairs, `name=value`, joined by `&`. */
  function Serialize(pairs: seq<(string, string)>): (r: string)
    ensures '?' !in r
    ensures |pairs| == 0 <==> r == ""
    decreases |pairs|
  {
    if |pairs| == 0 then ""
    else if |pairs| == 1 then SerializePair(pairs[0])
    else SerializePair(pairs[0]) + "&" + Serialize(pairs[1..])
  }

  /** '+' read as a space. */
  function PlusToSpace(bs: seq<Byte>): (r: seq<Byte>)
    decreases |bs|
  {
    if |bs| == 0 then [] else [if bs[0] == 0x2B then 0x20 else bs[0]] + PlusToSpace(bs[1..])
  }

  lemma {:induction false} PlusToSpaceConcat(a: seq<Byte>, b: seq<Byte>)
    ensures PlusToSpace(a + b) == PlusToSpace(a) + PlusToSpace(b)
    decreases |a|
  {
    if |a| > 0 {
      assert (a + b)[0] == a[0] && (a + b)[1..] == a[1..] + b;
      PlusToSpaceConcat(a[1..], b);
      var h: seq<Byte> := [if a[0] == 0x2B then 0x20 else a[0]];
      assert PlusToSpace(a + b) == h + PlusToSpace(a[1..] + b);
      assert PlusToSpace(a) == h + PlusToSpace(a[1..]);
      assert h + (PlusToSpace(a[1..]) + PlusToSpace(b)) == (h + PlusToSpace(a[1..])) + PlusToSpace(b);
    } else {
      assert a + b == b;
    }
  }

  /** Without a '+', nothing changes. */
  lemma {:induction false} PlusToSpaceNoPlus(a: seq<Byte>)
    requires forall k :: 0 <= k < |a| ==> a[k] != 0x2B
    ensures PlusToSpace(a) == a
    decreases |a|
  {
    if |a| > 0 {
      PlusToSpaceNoPlus(a[1..]);
      assert a == [a[0]] + a[1..];
    }
  }

  predicate IsHexByte(b: Byte)
  {
    0x30 <= b <= 0x39 || 0x41 <= b <= 0x46 || 0x61 <= b <= 0x66
  }

  function HexValue(b: Byte): (d: int)
    requires IsHexByte(b)
    ensures 0 <= d < 16
  {
    if b <= 0x39 then b - 0x30 else if b <= 0x46 then b - 0x41 + 10 else b - 0x61 + 10
  }

  /** Percent-decode: `%` and two hex digits is the byte they spell; any other `%` stays as it is. */
  function PercentDecode(bs: seq<Byte>): (r: seq<Byte>)
    ensures |r| <= |bs|
    decreases |bs|
  {
    if |bs| == 0 then []
    else if bs[0] == 0x25 && |bs| >= 3 && IsHexByte(bs[1]) && IsHexByte(bs[2]) then
      [HexValue(bs[1]) * 16 + HexValue(bs[2])] + PercentDecode(bs[3..])
    else [bs[0]] + PercentDecode(bs[1..])
  }

  /** A name or value as the parser reads it: '+' as space, percent-decoded, UTF-8 decoded. */
  function DecodeComponent(s: string): (r: string)
  {
    Utf8Decode(PercentDecode(PlusToSpace(Utf8Encode(s))))
  }

  /** The byte-level form of one encoded byte, read back as that byte. */
  lemma DecodeEncodedByte(b: Byte, rest: seq<Byte>)
    ensures PercentDecode(PlusToSpace(Utf8Encode(EncodeByte(b))) + rest) == [b] + PercentDecode(rest)
  {
    var e := EncodeByte(b);
    AsciiEncode(e);
    var u := Utf8Encode(e);
    if b == 0x20 {
      assert u == [0x2B];
      assert PlusToSpace(u) == [0x20];
      assert ([0x20] + rest)[1..] == rest;
    } else if Unreserved(b) {
      assert u == [b];
      assert PlusToSpace(u) == [b];
      assert ([b] + rest)[1..] == rest;
    } else {
      var h1 := HexDigit(b / 16) as int;
      var h2 := HexDigit(b % 16) as int;
      assert u == [0x25, h1, h2];
      PlusToSpaceNoPlus(u);
      var s := [0x25, h1, h2] + rest;
      assert s[0] == 0x25 && s[1] == h1 && s[2] == h2 && s[3..] == rest;
      assert HexValue(h1) * 16 + HexValue(h2) == b;
    }
  }

  /** Percent-decoding the byte-level form of encoded bytes gives the bytes back. */
  lemma {:induction false} DecodeEncodedBytes(bs: seq<Byte>)
    ensures PercentDecode(PlusToSpace(Utf8Encode(EncodeBytes(bs)))) == bs
    decreases |bs|
  {
    if |bs| > 0 {
      var h := EncodeByte(bs[0]);
      var t := EncodeBytes(bs[1..]);
      Utf8EncodeConcat(h, t);
      PlusToSpaceConcat(Utf8Encode(h), Utf8Encode(t));
      DecodeEncodedByte(bs[0], PlusToSpace(Utf8Encode(t)));
      DecodeEncodedBytes(bs[1..]);
      assert bs == [bs[0]] + bs[1..];
    }
  }

  /** A name or value reads back as itself, whatever characters it holds. */
  lemma FormRoundTrip(s: string)
    ensures DecodeComponent(FormEncode(s)) == s
  {
    DecodeEncodedBytes(Utf8Encode(s));
    Utf8RoundTrip(s);
  }

  /** `s` split at its first `c`: the text before and the text after; without `c`, all of `s` and nothing. */
  function SplitAtFirst(s: string, c: char): (r: (string, string))
    ensures c !in r.0
    decreases |s|
  {
    if |s| == 0 then ("", "")
    else if s[0] == c then ("", s[1..])
    else
      var (a, b) := SplitAtFirst(s[1..], c);
      ([s[0]] + a, b)
  }

  lemma {:induction false} SplitAtFirstConcat(a: string, b: string, c: char)
    requires c !in a
    ensures SplitAtFirst(a + [c] + b, c) == (a, b)
    decreases |a|
  {
    var s := a + [c] + b;
    if |a| == 0 {
      assert s == [c] + b && s[1..] == b;
    } else {
      assert s[0] == a[0] && s[1..] == a[1..] + [c] + b;
      SplitAtFirstConcat(a[1..], b, c);
      assert [a[0]] + a[1..] == a;
    }
  }

  lemma {:induction false} SplitAtFirstAbsent(s: string, c: char)
    requires c !in s
    ensures SplitAtFirst(s, c) == (s, "")
    decreases |s|
  {
    if |s| > 0 {
      SplitAtFirstAbsent(s[1..], c);
      assert [s[0]] + s[1..] == s;
    }
  }

  /** One `&`-separated piece: empty pieces are skipped, and a piece without `=` is a name with an empty value. */
  function ParsePieces(pieces: seq<string>): (r: seq<(string, string)>)
    ensures |r| <= |pieces|
    decreases |pieces|
  {
    if |pieces| == 0 then []
    else if pieces[0] == "" then ParsePieces(pieces[1..])
    else
      var (name, value) := SplitAtFirst(pieces[0], '=');
      [(DecodeComponent(name), DecodeComponent(value))] + ParsePieces(pieces[1..])
  }

  /**
   * The form-urlencoded parser, over the query text after `?`. Splitting the
   * text at `&` and `=` is splitting its UTF-8 bytes there, since no
   * multi-byte UTF-8 sequence holds an ASCII byte.
   */
  function ParseQuery(q: string): (r: seq<(string, string)>)
  {
    ParsePieces(Split(q, '&'))
  }

  function SerializedPieces(pairs: seq<(string, string)>): (r: seq<string>)
    ensures |r| == |pairs|
    ensures forall i :: 0 <= i < |pairs| ==> r[i] == SerializePair(pairs[i])
    decreases |pairs|
  {
    if |pairs| == 0 then [] else [SerializePair(pairs[0])] + SerializedPieces(pairs[1..])
  }

  lemma {:induction false} SplitSerialized(pairs: seq<(string, string)>)
    requires |pairs| > 0
    ensures Split(Serialize(pairs), '&') == SerializedPieces(pairs)
    decreases |pairs|
  {
    var p := SerializePair(pairs[0]);
    assert '&' !in p by {
      var a := FormEncode(pairs[0].0);
      var b := FormEncode(pairs[0].1);
      assert forall k :: 0 <= k < |p| ==> p[k] == if k < |a| then a[k] else if k == |a| then '=' else b[k - |a| - 1];
    }
    if |pairs| == 1 {
      SplitNoSep(p, '&');
    } else {
      SplitSerialized(pairs[1..]);
      SplitConcat(p, Serialize(pairs[1..]), '&');
    }
  }

  lemma {:induction false} ParseSerializedPieces(pairs: seq<(string, string)>)
    ensures ParsePieces(SerializedPieces(pairs)) == pairs
    decreases |pairs|
  {
    if |pairs| > 0 {
      var pieces := SerializedPieces(pairs);
      var a := FormEncode(pairs[0].0);
      var b := FormEncode(pairs[0].1);
      assert pieces[0] == a + ['='] + b;
      assert pieces[1..] == SerializedPieces(pairs[1..]);
      SplitAtFirstConcat(a, b, '=');
      FormRoundTrip(pairs[0].0);
      FormRoundTrip(pairs[0].1);
      ParseSerializedPieces(pairs[1..]);
      assert pairs == [pairs[0]] + pairs[1..];
    }
  }

  /** Parsing what `URLSearchParams` serialized gives back every pair, in order. */
  lemma ParseSerialize(pairs: seq<(string, string)>)
    ensures ParseQuery(Serialize(pairs)) == pairs
  {
    if |pairs| == 0 {
      assert Split("", '&') == [""];
    } else {
      SplitSerialized(pairs);
      ParseSerializedPieces(pairs);
    }
  }

  /** `URLSearchParams.get`: the value of the first pair with the name. */
  function GetByName(pairs: seq<(string, string)>, name: string): (r: Option<string>)
    decreases |pairs|
  {
    if |pairs| == 0 then None else if pairs[0].0 == name then Some(pairs[0].1) else GetByName(pairs[1..], name)
  }

  lemma {:induction false} EncodeBytesConcat(a: seq<Byte>, b: seq<Byte>)
    ensures EncodeBytes(a + b) == EncodeBytes(a) + EncodeBytes(b)
    decreases |a|
  {
    if |a| > 0 {
      assert (a + b)[0] == a[0] && (a + b)[1..] == a[1..] + b;
      EncodeBytesConcat(a[1..], b);
    } else {
      assert a + b == b;
    }
  }

  /** Names and values are encoded character by character. */
  lemma FormEncodeConcat(a: string, b: string)
    ensures FormEncode(a + b) == FormEncode(a) + FormEncode(b)
  {
    Utf8EncodeConcat(a, b);
    EncodeBytesConcat(Utf8Encode(a), Utf8Encode(b));
  }

  /** ASCII alphanumerics and `*`, `-`, `.`, `_`. */
  predicate PlainText(s: string)
  {
    forall k :: 0 <= k < |s| ==> s[k] as int < 0x80 && Unreserved(s[k] as int)
  }

  /** Text of unreserved characters is written as it is. */
  lemma {:induction false} PlainTextUnchanged(s: string)
    requires PlainText(s)
    ensures FormEncode(s) == s
    decreases |s|
  {
    if |s| > 0 {
      PlainTextUnchanged(s[1..]);
      FormEncodeConcat([s[0]], s[1..]);
      assert Utf8Encode([s[0]]) == [s[0] as int];
      assert EncodeBytes([s[0] as int]) == [s[0]];
      assert [s[0]] + s[1..] == s;
    }
  }

  /** A space is written as `+`: a search for "open enrollment" is written "open+enrollment". */
  lemma SpaceAsPlus(a: string, b: string)
    requires PlainText(a) && PlainText(b)
    ensures FormEncode(a + " " + b) == a + "+" + b
  {
    FormEncodeConcat(a + " ", b);
    FormEncodeConcat(a, " ");
    PlainTextUnchanged(a);
    PlainTextUnchanged(b);
    assert Utf8Encode(" ") == [0x20];
  }

  /** An `&` in a value is written as `%26`, so it cannot end the pair. */
  lemma AmpersandEscaped(a: string, b: string)
    requires PlainText(a) && PlainText(b)
    ensures FormEncode(a + "&" + b) == a + "%26" + b
  {
    FormEncodeConcat(a + "&", b);
    FormEncodeConcat(a, "&");
    PlainTextUnchanged(a);
    PlainTextUnchanged(b);
    assert Utf8Encode("&") == [0x26];
  }
}
