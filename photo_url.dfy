/** The public URL of a stored photo: the storage path trimmed of
    surrounding white space, percent-encoded (section 2.1 of RFC 3986) with
    the URL-path-allowed set, and appended to the project's public-object
    prefix. */
module PhotoUrl {
  import opened Wrappers
  import opened Platform

  // ------------------------------------------------------------- trimming

  /** `CharacterSet.whitespacesAndNewlines`: general category Z*, the
      tabulation and line-break controls U+0009..U+000D, and U+0085. */
  predicate IsWhitespaceOrNewline(c: char) {
    ('\U{0009}' <= c <= '\U{000D}') || c == ' ' || c == '\U{0085}' || c == '\U{00A0}'
    || c == '\U{1680}' || ('\U{2000}' <= c <= '\U{200A}') || c == '\U{2028}'
    || c == '\U{2029}' || c == '\U{202F}' || c == '\U{205F}' || c == '\U{3000}'
  }

  /** `s` without its leading white space. */
  function TrimStart(s: string): (r: string)
    ensures |r| <= |s| && r == s[|s| - |r|..]
    ensures forall k :: 0 <= k < |s| - |r| ==> IsWhitespaceOrNewline(s[k])
    ensures r == [] || !IsWhitespaceOrNewline(r[0])
  {
    if s != [] && IsWhitespaceOrNewline(s[0]) then TrimStart(s[1..]) else s
  }

  /** `s` without its trailing white space. */
  function TrimEnd(s: string): (r: string)
    ensures |r| <= |s| && r == s[..|r|]
    ensures forall k :: |r| <= k < |s| ==> IsWhitespaceOrNewline(s[k])
    ensures r == [] || !IsWhitespaceOrNewline(r[|r| - 1])
  {
    if s != [] && IsWhitespaceOrNewline(s[|s| - 1]) then TrimEnd(s[..|s| - 1]) else s
  }

  /** `s.trimmingCharacters(in: .whitespacesAndNewlines)`. */
  function Trim(s: string): string {
    TrimEnd(TrimStart(s))
  }

  /** Trimming keeps one contiguous slice of `s`, removes only white space
      around it, and leaves no white space at either end. */
  lemma TrimSpec(s: string)
    ensures var r := Trim(s); var i := |s| - |TrimStart(s)|;
      && 0 <= i <= i + |r| <= |s|
      && r == s[i..i + |r|]
      && (forall k :: 0 <= k < i ==> IsWhitespaceOrNewline(s[k]))
      && (forall k :: i + |r| <= k < |s| ==> IsWhitespaceOrNewline(s[k]))
      && (r == [] || (!IsWhitespaceOrNewline(r[0]) && !IsWhitespaceOrNewline(r[|r| - 1])))
  {
    TrimSlice(s);
    TrimTrailing(s);
    TrimEnds(s);
  }

  lemma TrimSlice(s: string)
    ensures var i := |s| - |TrimStart(s)|; 0 <= i <= i + |Trim(s)| <= |s| && Trim(s) == s[i..i + |Trim(s)|]
  {
    var t := TrimStart(s);
    var r := TrimEnd(t);
    SliceOfSuffix(s, |s| - |t|, |r|);
  }

  lemma SliceOfSuffix(s: string, i: nat, n: nat)
    requires i + n <= |s|
    ensures s[i..][..n] == s[i..i + n]
  {
  }

  lemma TrimTrailing(s: string)
    ensures var i := |s| - |TrimStart(s)|;
      forall k :: i + |Trim(s)| <= k < |s| ==> IsWhitespaceOrNewline(s[k])
  {
    var t := TrimStart(s);
    var r := TrimEnd(t);
    var i := |s| - |t|;
    forall k | i + |r| <= k < |s| ensures IsWhitespaceOrNewline(s[k]) {
      assert s[k] == t[k - i];
    }
  }

  lemma TrimEnds(s: string)
    ensures var r := Trim(s); r == [] || (!IsWhitespaceOrNewline(r[0]) && !IsWhitespaceOrNewline(r[|r| - 1]))
  {
    var t := TrimStart(s);
    var r := TrimEnd(t);
    if r != [] {
      assert r[0] == t[0];
    }
  }

  /** A string with no white space at its ends is its own trim. */
  lemma TrimmedIsFixed(s: string)
    requires s == [] || (!IsWhitespaceOrNewline(s[0]) && !IsWhitespaceOrNewline(s[|s| - 1]))
    ensures Trim(s) == s
  {
  }

  lemma TrimIdempotent(s: string)
    ensures Trim(Trim(s)) == Trim(s)
  {
    TrimSpec(s);
    TrimmedIsFixed(Trim(s));
  }

  /** White space added around a path does not change its trim. */
  lemma {:induction false} TrimIgnoresPadding(pad: string, s: string, pad2: string)
    requires forall k :: 0 <= k < |pad| ==> IsWhitespaceOrNewline(pad[k])
    requires forall k :: 0 <= k < |pad2| ==> IsWhitespaceOrNewline(pad2[k])
    ensures Trim(pad + s + pad2) == Trim(s)
  {
    TrimStartPadding(pad, s + pad2);
    assert pad + s + pad2 == pad + (s + pad2);
    TrimEndPadding(TrimStart(s), pad2);
    assert TrimStart(s + pad2) == TrimStart(s) + pad2 || (TrimStart(s) == [] && TrimStart(s + pad2) == []) by {
      TrimStartSuffix(s, pad2);
    }
  }

  lemma {:induction false} TrimStartPadding(pad: string, s: string)
    requires forall k :: 0 <= k < |pad| ==> IsWhitespaceOrNewline(pad[k])
    ensures TrimStart(pad + s) == TrimStart(s)
    decreases |pad|
  {
    if pad != [] {
      assert (pad + s)[0] == pad[0];
      assert (pad + s)[1..] == pad[1..] + s;
      TrimStartPadding(pad[1..], s);
    } else {
      assert pad + s == s;
    }
  }

  lemma {:induction false} TrimEndPadding(s: string, pad: string)
    requires forall k :: 0 <= k < |pad| ==> IsWhitespaceOrNewline(pad[k])
    ensures TrimEnd(s + pad) == TrimEnd(s)
    decreases |pad|
  {
    if pad != [] {
      var last := |s + pad| - 1;
      assert (s + pad)[last] == pad[|pad| - 1];
      assert (s + pad)[..last] == s + pad[..|pad| - 1];
      TrimEndPadding(s, pad[..|pad| - 1]);
    } else {
      assert s + pad == s;
    }
  }

  /** Trailing white space survives `TrimStart` unless everything is white. */
  lemma {:induction false} TrimStartSuffix(s: string, pad: string)
    requires forall k :: 0 <= k < |pad| ==> IsWhitespaceOrNewline(pad[k])
    ensures TrimStart(s + pad) == TrimStart(s) + pad || (TrimStart(s) == [] && TrimStart(s + pad) == [])
    decreases |s|
  {
    if s == [] {
      assert s + pad == pad;
      TrimStartPadding(pad, []);
      assert pad + [] == pad;
    } else {
      assert (s + pad)[0] == s[0];
      if IsWhitespaceOrNewline(s[0]) {
        assert (s + pad)[1..] == s[1..] + pad;
        TrimStartSuffix(s[1..], pad);
      }
    }
  }

  // ------------------------------------------------- the allowed character set

  /** `CharacterSet.urlPathAllowed`: the RFC 3986 `pchar` characters and
      `/` — letters, digits, `-._~`, the sub-delimiters other than `;`,
      `:` and `@`. `%`, `?`, `#`, `;`, space and every non-ASCII character
      are percent-encoded. */
  predicate UrlPathAllowed(c: char) {
    ('a' <= c <= 'z') || ('A' <= c <= 'Z') || ('0' <= c <= '9') || c in "-._~!$&'()*+,=:@/"
  }

  lemma AllowedIsAscii(c: char)
    requires UrlPathAllowed(c)
    ensures c as int < 128 && c != '%'
  {
  }

  // ---------------------------------------------------------------- UTF-8

  /** A byte of the form 10xxxxxx. */
  predicate IsContinuation(b: Byte) {
    0x80 <= b < 0xC0
  }

  /** The UTF-8 encoding of one scalar value. */
  function Utf8Char(c: char): (r: Bytes)
    ensures 1 <= |r| <= 4
    ensures c as int < 0x80 <==> r == [c as int]
    ensures c as int >= 0x80 ==> forall k :: 0 <= k < |r| ==> r[k] >= 0x80
  {
    var v := c as int;
    if v < 0x80 then [v]
    else if v < 0x800 then [0xC0 + v / 64, 0x80 + v % 64]
    else if v < 0x10000 then [0xE0 + v / 4096, 0x80 + (v / 64) % 64, 0x80 + v % 64]
    else [0xF0 + v / 262144, 0x80 + (v / 4096) % 64, 0x80 + (v / 64) % 64, 0x80 + v % 64]
  }

  function Utf8Bytes(s: string): Bytes {
    if s == [] then [] else Utf8Char(s[0]) + Utf8Bytes(s[1..])
  }

  /** The scalar value a well-formed sequence of `n` bytes stands for, with
      overlong forms, surrogates and values past U+10FFFF refused. */
  function DecodeScalar(bs: Bytes): (r: Option<(char, nat)>)
    ensures r.Some? ==> 1 <= r.value.1 <= |bs| && r.value.1 <= 4
  {
    if bs == [] then None
    else
      var b0 := bs[0] as int;
      if b0 < 0x80 then Some((b0 as char, 1))
      else if 0xC0 <= b0 < 0xE0 && |bs| >= 2 && IsContinuation(bs[1]) then
        var v := (b0 - 0xC0) * 64 + (bs[1] as int - 0x80);
        if v >= 0x80 then Some((v as char, 2)) else None
      else if 0xE0 <= b0 < 0xF0 && |bs| >= 3 && IsContinuation(bs[1]) && IsContinuation(bs[2]) then
        var v := (b0 - 0xE0) * 4096 + (bs[1] as int - 0x80) * 64 + (bs[2] as int - 0x80);
        if v >= 0x800 && !(0xD800 <= v < 0xE000) then Some((v as char, 3)) else None
      else if 0xF0 <= b0 < 0xF5 && |bs| >= 4 && IsContinuation(bs[1]) && IsContinuation(bs[2])
              && IsContinuation(bs[3]) then
        var v := (b0 - 0xF0) * 262144 + (bs[1] as int - 0x80) * 4096 + (bs[2] as int - 0x80) * 64 + (bs[3] as int - 0x80);
        if 0x10000 <= v <= 0x10FFFF then Some((v as char, 4)) else None
      else None
  }

  function Utf8Decode(bs: Bytes): Option<string>
    decreases |bs|
  {
    if bs == [] then Some([])
    else match DecodeScalar(bs)
      case None => None
      case Some((c, n)) =>
        match Utf8Decode(bs[n..])
        case None => None
        case Some(rest) => Some([c] + rest)
  }

  /** Decoding reads each encoded scalar back, whatever follows it. */
  lemma DecodeScalarOfEncoded(c: char, rest: Bytes)
    ensures DecodeScalar(Utf8Char(c) + rest) == Some((c, |Utf8Char(c)|))
  {
    var v := c as int;
    if v < 0x80 {
    } else if v < 0x800 {
      DecodeTwoBytes(c, rest);
    } else if v < 0x10000 {
      DecodeThreeBytes(c, rest);
    } else {
      DecodeFourBytes(c, rest);
    }
  }

  lemma DecodeTwoBytes(c: char, rest: Bytes)
    requires 0x80 <= c as int < 0x800
    ensures DecodeScalar(Utf8Char(c) + rest) == Some((c, 2))
  {
    var v := c as int;
    var bs := Utf8Char(c) + rest;
    assert bs[0] == 0xC0 + v / 64 && bs[1] == 0x80 + v % 64;
    assert (v / 64) * 64 + v % 64 == v;
  }

  lemma DecodeThreeBytes(c: char, rest: Bytes)
    requires 0x800 <= c as int < 0x10000
    ensures DecodeScalar(Utf8Char(c) + rest) == Some((c, 3))
  {
    var v := c as int;
    var bs := Utf8Char(c) + rest;
    assert bs[0] == 0xE0 + v / 4096 && bs[1] == 0x80 + (v / 64) % 64 && bs[2] == 0x80 + v % 64;
    DigitsOf(v);
  }

  lemma DecodeFourBytes(c: char, rest: Bytes)
    requires 0x10000 <= c as int
    ensures DecodeScalar(Utf8Char(c) + rest) == Some((c, 4))
  {
    var v := c as int;
    var bs := Utf8Char(c) + rest;
    assert bs[0] == 0xF0 + v / 262144 && bs[1] == 0x80 + (v / 4096) % 64;
    assert bs[2] == 0x80 + (v / 64) % 64 && bs[3] == 0x80 + v % 64;
    DigitsOf(v);
  }

  /** The base-64 digits of `v` put back together. */
  lemma DigitsOf(v: nat)
    ensures (v / 4096) * 4096 + ((v / 64) % 64) * 64 + v % 64 == v
    ensures (v / 262144) * 262144 + ((v / 4096) % 64) * 4096 + ((v / 64) % 64) * 64 + v % 64 == v
  {
    var q := v / 64;
    assert v == q * 64 + v % 64;
    assert q == (q / 64) * 64 + q % 64;
    assert q / 64 == v / 4096;
    var p := v / 4096;
    assert p == (p / 64) * 64 + p % 64;
    assert p / 64 == v / 262144;
  }

  /** UTF-8 decoding inverts UTF-8 encoding. */
  lemma {:induction false} Utf8RoundTrip(s: string)
    ensures Utf8Decode(Utf8Bytes(s)) == Some(s)
  {
    if s != [] {
      var bs := Utf8Bytes(s);
      var head := Utf8Char(s[0]);
      DecodeScalarOfEncoded(s[0], Utf8Bytes(s[1..]));
      assert bs[|head|..] == Utf8Bytes(s[1..]);
      Utf8RoundTrip(s[1..]);
      assert [s[0]] + s[1..] == s;
    }
  }

  lemma {:induction false} Utf8BytesAppend(a: string, b: string)
    ensures Utf8Bytes(a + b) == Utf8Bytes(a) + Utf8Bytes(b)
  {
    if a == [] {
      assert a + b == b;
    } else {
      assert (a + b)[0] == a[0] && (a + b)[1..] == a[1..] + b;
      Utf8BytesAppend(a[1..], b);
    }
  }

  // --------------------------------------------------------- percent codes

  const HexDigits: string := "0123456789ABCDEF"

  /** The value of a hexadecimal digit of either case. */
  function HexValue(c: char): (r: Option<nat>)
    ensures r.Some? ==> r.value < 16
  {
    if '0' <= c <= '9' then Some(c as int - '0' as int)
    else if 'A' <= c <= 'F' then Some(c as int - 'A' as int + 10)
    else if 'a' <= c <= 'f' then Some(c as int - 'a' as int + 10)
    else None
  }

  lemma HexDigitValue(d: nat)
    requires d < 16
    ensures HexValue(HexDigits[d]) == Some(d)
  {
    if d < 10 {
      assert HexDigits[d] as int == '0' as int + d;
    } else {
      assert HexDigits[d] as int == 'A' as int + d - 10;
    }
  }

  /** One byte as it appears in the encoded path: itself when it is an
      allowed ASCII character, otherwise `%` and two upper-case hex digits. */
  function EscapeByte(b: Byte): string {
    if b < 0x80 && UrlPathAllowed(b as char) then [b as char]
    else ['%', HexDigits[b / 16], HexDigits[b % 16]]
  }

  function EscapeBytes(bs: Bytes): string {
    if bs == [] then [] else EscapeByte(bs[0]) + EscapeBytes(bs[1..])
  }

  /** `s.addingPercentEncoding(withAllowedCharacters: .urlPathAllowed)`:
      the UTF-8 bytes of `s`, each written as `EscapeByte` writes it. Every
      allowed character is ASCII, so a multi-byte character is escaped byte
      by byte. */
  function PercentEncode(s: string): string {
    EscapeBytes(Utf8Bytes(s))
  }

  /** The bytes a percent-encoded string stands for: `%XX` is one byte, an
      ASCII character is its own code. */
  function Unescape(t: string): Option<Bytes>
    decreases |t|
  {
    if t == [] then Some([])
    else if t[0] == '%' then
      if |t| >= 3 && HexValue(t[1]).Some? && HexValue(t[2]).Some? then
        match Unescape(t[3..])
        case None => None
        case Some(rest) => Some([HexValue(t[1]).value * 16 + HexValue(t[2]).value] + rest)
      else None
    else if t[0] as int < 0x80 then
      match Unescape(t[1..])
      case None => None
      case Some(rest) => Some([t[0] as int] + rest)
    else None
  }

  /** `removingPercentEncoding`. */
  function PercentDecode(t: string): Option<string> {
    match Unescape(t)
    case None => None
    case Some(bs) => Utf8Decode(bs)
  }

  lemma UnescapeEscapedByte(b: Byte, t: string)
    ensures Unescape(EscapeByte(b) + t) == match Unescape(t)
                                           case None => None
                                           case Some(rest) => Some([b] + rest)
  {
    var e := EscapeByte(b) + t;
    if b < 0x80 && UrlPathAllowed(b as char) {
      AllowedIsAscii(b as char);
      assert e[0] == b as char && e[1..] == t;
    } else {
      HexDigitValue(b / 16);
      HexDigitValue(b % 16);
      assert e[0] == '%' && e[1] == HexDigits[b / 16] && e[2] == HexDigits[b % 16] && e[3..] == t;
    }
  }

  lemma {:induction false} UnescapeRoundTrip(bs: Bytes)
    ensures Unescape(EscapeBytes(bs)) == Some(bs)
  {
    if bs != [] {
      UnescapeEscapedByte(bs[0], EscapeBytes(bs[1..]));
      UnescapeRoundTrip(bs[1..]);
      assert [bs[0]] + bs[1..] == bs;
    }
  }

  /** Percent-decoding the encoded path gives back the path: encoding loses
      nothing, so two different paths never share a URL. */
  lemma PercentEncodeRoundTrip(s: string)
    ensures PercentDecode(PercentEncode(s)) == Some(s)
  {
    UnescapeRoundTrip(Utf8Bytes(s));
    Utf8RoundTrip(s);
  }

  lemma PercentEncodeInjective(s: string, t: string)
    requires PercentEncode(s) == PercentEncode(t)
    ensures s == t
  {
    PercentEncodeRoundTrip(s);
    PercentEncodeRoundTrip(t);
  }

  /** What one character becomes. */
  function EncodeChar(c: char): string {
    EscapeBytes(Utf8Char(c))
  }

  lemma {:induction false} EscapeBytesAppend(a: Bytes, b: Bytes)
    ensures EscapeBytes(a + b) == EscapeBytes(a) + EscapeBytes(b)
  {
    if a == [] {
      assert a + b == b;
    } else {
      assert (a + b)[0] == a[0] && (a + b)[1..] == a[1..] + b;
      EscapeBytesAppend(a[1..], b);
    }
  }

  /** Encoding works character by character. */
  lemma PercentEncodeAppend(a: string, b: string)
    ensures PercentEncode(a + b) == PercentEncode(a) + PercentEncode(b)
  {
    Utf8BytesAppend(a, b);
    EscapeBytesAppend(Utf8Bytes(a), Utf8Bytes(b));
  }

  lemma PercentEncodeCons(s: string)
    requires s != []
    ensures PercentEncode(s) == EncodeChar(s[0]) + PercentEncode(s[1..])
  {
    EscapeBytesAppend(Utf8Char(s[0]), Utf8Bytes(s[1..]));
  }

  /** An allowed character is kept as it is; any other character becomes at
      least one `%XX` group and starts with `%`. */
  lemma EncodeCharShape(c: char)
    ensures UrlPathAllowed(c) ==> EncodeChar(c) == [c]
    ensures !UrlPathAllowed(c) ==> |EncodeChar(c)| >= 3 && EncodeChar(c)[0] == '%'
  {
    var bs := Utf8Char(c);
    EscapeBytesAppend([bs[0]], bs[1..]);
    assert [bs[0]] + bs[1..] == bs;
    assert EscapeBytes([bs[0]]) == EscapeByte(bs[0]);
    if UrlPathAllowed(c) {
      AllowedIsAscii(c);
      assert (c as int) as char == c;
    } else if c as int < 0x80 {
      assert (c as int) as char == c;
    }
  }

  /** Encoding never shortens a path, and keeps its length exactly when
      every character is allowed — in which case it is the path itself. */
  lemma {:induction false} PercentEncodeLength(s: string)
    ensures |PercentEncode(s)| >= |s|
    ensures (forall k :: 0 <= k < |s| ==> UrlPathAllowed(s[k])) <==> |PercentEncode(s)| == |s|
    ensures (forall k :: 0 <= k < |s| ==> UrlPathAllowed(s[k])) ==> PercentEncode(s) == s
  {
    if s != [] {
      PercentEncodeCons(s);
      EncodeCharShape(s[0]);
      PercentEncodeLength(s[1..]);
      if forall k :: 0 <= k < |s| ==> UrlPathAllowed(s[k]) {
        assert forall k :: 0 <= k < |s[1..]| ==> UrlPathAllowed(s[1..][k]) by {
          forall k | 0 <= k < |s[1..]| ensures UrlPathAllowed(s[1..][k]) {
            assert s[1..][k] == s[k + 1];
          }
        }
        assert [s[0]] + s[1..] == s;
      } else if UrlPathAllowed(s[0]) {
        var k :| 0 <= k < |s| && !UrlPathAllowed(s[k]);
        assert k > 0 && s[1..][k - 1] == s[k];
      }
    }
  }

  /** A string of allowed characters starts the encoded path exactly when
      it starts the path. */
  lemma {:induction false} AllowedPrefix(a: string, s: string)
    requires forall k :: 0 <= k < |a| ==> UrlPathAllowed(a[k])
    ensures (|s| >= |a| && s[..|a|] == a) <==> (|PercentEncode(s)| >= |a| && PercentEncode(s)[..|a|] == a)
    decreases |a|
  {
    if a != [] && s != [] {
      var e := PercentEncode(s);
      PercentEncodeCons(s);
      EncodeCharShape(s[0]);
      AllowedIsAscii(a[0]);
      assert forall k :: 0 <= k < |a[1..]| ==> UrlPathAllowed(a[1..][k]) by {
        forall k | 0 <= k < |a[1..]| ensures UrlPathAllowed(a[1..][k]) {
          assert a[1..][k] == a[k + 1];
        }
      }
      AllowedPrefix(a[1..], s[1..]);
      PrefixCons(s, a);
      if UrlPathAllowed(s[0]) {
        assert e == [s[0]] + PercentEncode(s[1..]);
        assert e[0] == s[0] && e[1..] == PercentEncode(s[1..]);
        PrefixCons(e, a);
      } else {
        assert e[0] == '%';
        assert s[0] != a[0];
      }
    }
  }

  /** A non-empty prefix is its first element and a prefix of the rest. */
  lemma PrefixCons(s: string, a: string)
    requires a != [] && s != []
    ensures (|s| >= |a| && s[..|a|] == a)
            <==> (s[0] == a[0] && |s[1..]| >= |a[1..]| && s[1..][..|a[1..]|] == a[1..])
  {
    if |s| >= |a| && s[..|a|] == a {
      assert s[0] == s[..|a|][0];
      assert s[1..][..|a[1..]|] == s[..|a|][1..];
    }
    if s[0] == a[0] && |s[1..]| >= |a[1..]| && s[1..][..|a[1..]|] == a[1..] {
      assert s[..|a|] == [s[0]] + s[1..][..|a[1..]|];
      assert a == [a[0]] + a[1..];
    }
  }

  /** The storage-folder prefix of the app's paths. */
  const PhotosFolder: string := "photos/"

  /** The encoder neither adds nor removes a `photos/` prefix. */
  lemma PhotosFolderKept(s: string)
    ensures (|s| >= 7 && s[..7] == PhotosFolder)
            <==> (|PercentEncode(s)| >= 7 && PercentEncode(s)[..7] == PhotosFolder)
  {
    assert |PhotosFolder| == 7;
    AllowedPrefix(PhotosFolder, s);
  }

  // ------------------------------------------------------------ the URL

  /** What the URL builders read from the bundle and from Foundation: the
      `SUPABASE_URL` entry of Info.plist, and `URL(string:)` as a validity
      test. */
  datatype Environment = Environment(supabaseUrl: Option<string>, isValidUrl: string -> bool)

  const PublicObjectPrefix: string := "/storage/v1/object/public/event-photos/"

  /** The URL text for a stored path. */
  function PublicUrlText(base: string, path: string): string {
    base + PublicObjectPrefix + PercentEncode(Trim(path))
  }

  /** The errors of `getPhotoURL`, in `domain` "SupabaseService". */
  function MissingBaseUrl(domain: string): Failure {
    Coded(domain, 1006, "Missing Supabase URL configuration")
  }

  function InvalidUrlFormat(domain: string): Failure {
    Coded(domain, 1007, "Invalid URL format")
  }

  /** `SupabaseService.getPhotoURL(path:)`. */
  function GetPhotoURL(env: Environment, path: string): (r: Result<string, Failure>)
    ensures env.supabaseUrl.None? <==> r == Failure(MissingBaseUrl("SupabaseService"))
    ensures r.Success? ==> env.supabaseUrl.Some? && env.isValidUrl(r.value)
  {
    var cleanPath := Trim(path);
    match env.supabaseUrl
    case None => Failure(MissingBaseUrl("SupabaseService"))
    case Some(base) =>
      var urlString := base + PublicObjectPrefix + PercentEncode(cleanPath);
      if env.isValidUrl(urlString) then Success(urlString)
      else Failure(InvalidUrlFormat("SupabaseService"))
  }

  /** A successful URL is the base, the fixed prefix and the encoded trimmed
      path, and percent-decoding what follows the prefix gives back the
      trimmed path; only a base URL plus a string `URL(string:)` refuses
      gives error 1007. */
  lemma GetPhotoURLSpec(env: Environment, path: string)
    ensures env.supabaseUrl.Some? ==>
      var base := env.supabaseUrl.value;
      var text := PublicUrlText(base, path);
      && (env.isValidUrl(text) ==> GetPhotoURL(env, path) == Success(text))
      && (!env.isValidUrl(text) ==> GetPhotoURL(env, path) == Failure(InvalidUrlFormat("SupabaseService")))
    ensures GetPhotoURL(env, path).Success? ==>
      var base := env.supabaseUrl.value;
      var url := GetPhotoURL(env, path).value;
      && |url| >= |base + PublicObjectPrefix|
      && url[..|base + PublicObjectPrefix|] == base + PublicObjectPrefix
      && PercentDecode(url[|base + PublicObjectPrefix|..]) == Some(Trim(path))
  {
    if GetPhotoURL(env, path).Success? {
      var base := env.supabaseUrl.value;
      var url := GetPhotoURL(env, path).value;
      assert url[|base + PublicObjectPrefix|..] == PercentEncode(Trim(path));
      PercentEncodeRoundTrip(Trim(path));
    }
  }

  /** The URL of a path under `photos/` has `photos/` right after the fixed
      prefix, and the URL of any other path does not: the resolver keeps the
      path's folder as it is. */
  lemma GetPhotoURLKeepsFolder(env: Environment, path: string)
    requires GetPhotoURL(env, path).Success?
    ensures var n := |env.supabaseUrl.value + PublicObjectPrefix|;
      var url := GetPhotoURL(env, path).value;
      var t := Trim(path);
      (|t| >= 7 && t[..7] == PhotosFolder) <==> (|url| >= n + 7 && url[n..n + 7] == PhotosFolder)
  {
    var n := |env.supabaseUrl.value + PublicObjectPrefix|;
    var url := GetPhotoURL(env, path).value;
    var e := PercentEncode(Trim(path));
    assert url[n..] == e;
    PhotosFolderKept(Trim(path));
    if |url| >= n + 7 {
      assert url[n..n + 7] == e[..7];
    }
  }

  /** White space around the stored path never changes the URL. */
  lemma GetPhotoURLIgnoresPadding(env: Environment, pad: string, path: string, pad2: string)
    requires forall k :: 0 <= k < |pad| ==> IsWhitespaceOrNewline(pad[k])
    requires forall k :: 0 <= k < |pad2| ==> IsWhitespaceOrNewline(pad2[k])
    ensures GetPhotoURL(env, pad + path + pad2) == GetPhotoURL(env, path)
  {
    TrimIgnoresPadding(pad, path, pad2);
    SameTrimSameUrl(env, pad + path + pad2, path);
  }

  lemma SameTrimSameUrl(env: Environment, p: string, q: string)
    requires Trim(p) == Trim(q)
    ensures GetPhotoURL(env, p) == GetPhotoURL(env, q)
  {
  }

  /** The shape of the app's own storage paths, `photos/<event id>/<file
      uuid>.jpg`: for ids of allowed characters the encoded path is the
      path, so the URL ends with it verbatim, slashes included. */
  lemma StoragePathEncodedVerbatim(eventId: string, uuid: string)
    requires forall k :: 0 <= k < |eventId| ==> UrlPathAllowed(eventId[k])
    requires forall k :: 0 <= k < |uuid| ==> UrlPathAllowed(uuid[k])
    ensures var p := PhotosFolder + eventId + "/" + uuid + ".jpg"; PercentEncode(p) == p
  {
    var p := PhotosFolder + eventId + "/" + uuid + ".jpg";
    forall k | 0 <= k < |p| ensures UrlPathAllowed(p[k]) {
      if k < 7 {
      } else if k < 7 + |eventId| {
        assert p[k] == eventId[k - 7];
      } else if k == 7 + |eventId| {
      } else if k < 8 + |eventId| + |uuid| {
        assert p[k] == uuid[k - 8 - |eventId|];
      }
    }
    PercentEncodeLength(p);
  }
}
