/** Percent-encoding of a URL component, as `encodeURIComponent` does it
    (section 2.1 of RFC 3986, UTF-8 per RFC 3629), and the decoding the
    re-entered proxy applies when it reads its `url` query parameter (the
    application/x-www-form-urlencoded parser of the WHATWG URL standard, which
    backs `URLSearchParams.get`). */
module UriCodec {
  import opened JsText
  import opened Wrappers

  type Byte = b: int | 0 <= b < 256

  const Replacement: char := 0xFFFD as char

  // ---------------------------------------------------------------------
  // UTF-8

  /** The UTF-8 encoding of one Unicode scalar value. */
  function Utf8Char(c: char): (r: seq<Byte>)
    ensures 1 <= |r| <= 4
    ensures (|r| == 1) <==> c as int < 0x80
  {
    var n := c as int;
    if n < 0x80 then [n]
    else if n < 0x800 then [0xC0 + n / 64, 0x80 + n % 64]
    else if n < 0x10000 then [0xE0 + n / 4096, 0x80 + (n / 64) % 64, 0x80 + n % 64]
    else [0xF0 + n / 262144, 0x80 + (n / 4096) % 64, 0x80 + (n / 64) % 64, 0x80 + n % 64]
  }

  function Utf8Encode(s: string): seq<Byte>
  {
    if s == [] then [] else Utf8Char(s[0]) + Utf8Encode(s[1..])
  }

  /** The length of the sequence a lead byte announces; 0 for a byte that
      cannot start one. */
  function SequenceLength(lead: Byte): nat
  {
    if lead < 0x80 then 1
    else if 0xC2 <= lead <= 0xDF then 2
    else if 0xE0 <= lead <= 0xEF then 3
    else if 0xF0 <= lead <= 0xF4 then 4
    else 0
  }

  /** The range the second byte must fall in after a given lead byte (it
      excludes overlong forms, surrogates and values above U+10FFFF). */
  function SecondLow(lead: Byte): Byte
  {
    if lead == 0xE0 then 0xA0 else if lead == 0xF0 then 0x90 else 0x80
  }

  function SecondHigh(lead: Byte): Byte
  {
    if lead == 0xED then 0x9F else if lead == 0xF4 then 0x8F else 0xBF
  }

  predicate IsContinuation(b: Byte)
  {
    0x80 <= b <= 0xBF
  }

  /** How many bytes of `b`, from its multi-byte lead byte on, form a valid
      (possibly incomplete) prefix of a sequence: at least 1, at most the
      announced length. */
  function ValidPrefix(b: seq<Byte>): (k: nat)
    requires |b| >= 1 && SequenceLength(b[0]) >= 2
    ensures 1 <= k <= SequenceLength(b[0]) && k <= |b|
  {
    var n := SequenceLength(b[0]);
    if |b| < 2 || !(SecondLow(b[0]) <= b[1] <= SecondHigh(b[0])) then 1
    else if n == 2 then 2
    else if |b| < 3 || !IsContinuation(b[2]) then 2
    else if n == 3 then 3
    else if |b| < 4 || !IsContinuation(b[3]) then 3
    else 4
  }

  /** The scalar value of a complete, valid multi-byte sequence. */
  function SequenceValue(b: seq<Byte>): (c: char)
    requires |b| >= 2 && SequenceLength(b[0]) >= 2 && ValidPrefix(b) == SequenceLength(b[0])
  {
    var n := SequenceLength(b[0]);
    var b0, b1 := b[0] as int, b[1] as int;
    if n == 2 then ((b0 - 0xC0) * 64 + (b1 - 0x80)) as char
    else if n == 3 then ((b0 - 0xE0) * 4096 + (b1 - 0x80) * 64 + (b[2] as int - 0x80)) as char
    else ((b0 - 0xF0) * 262144 + (b1 - 0x80) * 4096 + (b[2] as int - 0x80) * 64 + (b[3] as int - 0x80)) as char
  }

  /** UTF-8 decode (WHATWG Encoding standard): a maximal invalid subpart
      becomes one U+FFFD. */
  function Utf8Decode(b: seq<Byte>): string
    decreases |b|
  {
    if b == [] then []
    else
      var n := SequenceLength(b[0]);
      if n == 0 then [Replacement] + Utf8Decode(b[1..])
      else if n == 1 then [b[0] as char] + Utf8Decode(b[1..])
      else
        var k := ValidPrefix(b);
        if k == n then [SequenceValue(b)] + Utf8Decode(b[n..])
        else [Replacement] + Utf8Decode(b[k..])
  }

  lemma Utf8EncodeAppend(a: string, b: string)
    ensures Utf8Encode(a + b) == Utf8Encode(a) + Utf8Encode(b)
  {
    if a != [] {
      assert (a + b)[1..] == a[1..] + b;
      Utf8EncodeAppend(a[1..], b);
    } else {
      assert a + b == b;
    }
  }

  lemma Utf8TwoDecodes(c: char, rest: seq<Byte>)
    requires 0x80 <= c as int < 0x800
    ensures Utf8Decode(Utf8Char(c) + rest) == [c] + Utf8Decode(rest)
  {
    var n := c as int;
    var b := Utf8Char(c) + rest;
    assert b[0] == 0xC0 + n / 64 && b[1] == 0x80 + n % 64;
    assert SequenceLength(b[0]) == 2;
    assert ValidPrefix(b) == 2;
    assert b[2..] == rest;
  }

  lemma Utf8ThreeDecodes(c: char, rest: seq<Byte>)
    requires 0x800 <= c as int < 0x10000
    ensures Utf8Decode(Utf8Char(c) + rest) == [c] + Utf8Decode(rest)
  {
    var n := c as int;
    var b := Utf8Char(c) + rest;
    var q := n / 64;
    assert q == (n / 4096) * 64 + q % 64;
    assert b[0] == 0xE0 + n / 4096 && b[1] == 0x80 + q % 64 && b[2] == 0x80 + n % 64;
    assert SequenceLength(b[0]) == 3;
    assert ValidPrefix(b) == 3;
    assert (b[0] as int - 0xE0) * 4096 + (b[1] as int - 0x80) * 64 + (b[2] as int - 0x80) == n;
    assert b[3..] == rest;
  }

  /** The four bytes of a supplementary character and its scalar value. */
  lemma Utf8FourBytes(c: char)
    requires 0x10000 <= c as int
    ensures var b, n := Utf8Char(c), c as int;
      && |b| == 4 && SequenceLength(b[0]) == 4
      && SecondLow(b[0]) <= b[1] <= SecondHigh(b[0]) && IsContinuation(b[2]) && IsContinuation(b[3])
      && (b[0] as int - 0xF0) * 262144 + (b[1] as int - 0x80) * 4096 + (b[2] as int - 0x80) * 64 + (b[3] as int - 0x80) == n
  {
    var n := c as int;
    var b := Utf8Char(c);
    assert b[0] == 0xF0 + n / 262144 && b[1] == 0x80 + (n / 4096) % 64;
    assert b[2] == 0x80 + (n / 64) % 64 && b[3] == 0x80 + n % 64;
    SixBitGroups(n);
  }

  /** `n` in base 64, four digits. */
  lemma SixBitGroups(n: nat)
    ensures n == (n / 262144) * 262144 + ((n / 4096) % 64) * 4096 + ((n / 64) % 64) * 64 + n % 64
  {
    var q := n / 64;
    var p := n / 4096;
    assert n == q * 64 + n % 64;
    assert q == p * 64 + q % 64;
    assert p == (n / 262144) * 64 + p % 64;
  }

  lemma Utf8FourDecodes(c: char, rest: seq<Byte>)
    requires 0x10000 <= c as int
    ensures Utf8Decode(Utf8Char(c) + rest) == [c] + Utf8Decode(rest)
  {
    var b := Utf8Char(c) + rest;
    Utf8FourBytes(c);
    assert b[..4] == Utf8Char(c);
    assert ValidPrefix(b) == 4;
    assert SequenceValue(b) == c;
    assert b[4..] == rest;
  }

  /** Decoding the encoding of one character gives that character back and
      leaves the rest of the stream where it was. */
  lemma Utf8CharDecodes(c: char, rest: seq<Byte>)
    ensures Utf8Decode(Utf8Char(c) + rest) == [c] + Utf8Decode(rest)
  {
    var n := c as int;
    if n < 0x80 {
      assert (Utf8Char(c) + rest)[1..] == rest;
    } else if n < 0x800 {
      Utf8TwoDecodes(c, rest);
    } else if n < 0x10000 {
      Utf8ThreeDecodes(c, rest);
    } else {
      Utf8FourDecodes(c, rest);
    }
  }

  /** UTF-8 decoding inverts UTF-8 encoding on every string. */
  lemma {:induction false} Utf8RoundTrip(s: string)
    ensures Utf8Decode(Utf8Encode(s)) == s
  {
    if s != [] {
      Utf8CharDecodes(s[0], Utf8Encode(s[1..]));
      Utf8RoundTrip(s[1..]);
      assert [s[0]] + s[1..] == s;
    }
  }

  // ---------------------------------------------------------------------
  // encodeURIComponent

  /** The characters `encodeURIComponent` leaves alone: the unreserved set of
      section 2.3 of RFC 3986 plus `! * ' ( )`. */
  predicate IsUnescaped(c: char)
  {
    ('A' <= c <= 'Z') || ('a' <= c <= 'z') || ('0' <= c <= '9')
    || c == '-' || c == '_' || c == '.' || c == '!' || c == '~'
    || c == '*' || c == '\'' || c == '(' || c == ')'
  }

  /** Upper-case hexadecimal digit. */
  function HexDigit(d: int): (c: char)
    requires 0 <= d < 16
    ensures ('0' <= c <= '9') || ('A' <= c <= 'F')
  {
    if d < 10 then ('0' as int + d) as char else ('A' as int + d - 10) as char
  }

  /** `%XY` for one byte. */
  function PercentByte(b: Byte): string
  {
    ['%', HexDigit(b / 16), HexDigit(b % 16)]
  }

  function PercentBytes(bs: seq<Byte>): (r: string)
    ensures |r| == 3 * |bs|
  {
    if bs == [] then [] else PercentByte(bs[0]) + PercentBytes(bs[1..])
  }

  function EncodeChar(c: char): string
  {
    if IsUnescaped(c) then [c] else PercentBytes(Utf8Char(c))
  }

  /** `encodeURIComponent(s)`. */
  function EncodeURIComponent(s: string): string
  {
    if s == [] then [] else EncodeChar(s[0]) + EncodeURIComponent(s[1..])
  }

  /** The characters of an encoded component. */
  predicate IsEncodedChar(c: char)
  {
    IsUnescaped(c) || c == '%'
  }

  predicate IsEncodedText(s: string)
  {
    forall i :: 0 <= i < |s| ==> IsEncodedChar(s[i])
  }

  lemma PercentBytesAlphabet(bs: seq<Byte>)
    ensures IsEncodedText(PercentBytes(bs))
  {
    if bs != [] {
      PercentBytesAlphabet(bs[1..]);
      var r := PercentBytes(bs);
      assert r == PercentByte(bs[0]) + PercentBytes(bs[1..]);
    }
  }

  /** The encoded text uses only unescaped characters and `%`: in particular
      no `&`, `=`, `+`, `#`, `?`, `/`, white space or line break, so it can
      stand as one query parameter value and on one playlist line. */
  lemma {:induction false} EncodedAlphabet(s: string)
    ensures IsEncodedText(EncodeURIComponent(s))
  {
    if s != [] {
      assert IsEncodedText(EncodeChar(s[0])) by {
        if !IsUnescaped(s[0]) {
          PercentBytesAlphabet(Utf8Char(s[0]));
        }
      }
      EncodedAlphabet(s[1..]);
      EncodedAppend(EncodeChar(s[0]), EncodeURIComponent(s[1..]));
    }
  }

  lemma EncodedAppend(a: string, b: string)
    requires IsEncodedText(a) && IsEncodedText(b)
    ensures IsEncodedText(a + b)
  {
    forall i | 0 <= i < |a + b| ensures IsEncodedChar((a + b)[i]) {
      if i >= |a| {
        assert (a + b)[i] == b[i - |a|];
      }
    }
  }

  /** A character outside the encoded alphabet never appears in an
      encoding. */
  lemma EncodedLacks(s: string, c: char)
    requires !IsEncodedChar(c)
    ensures c !in EncodeURIComponent(s)
  {
    var e := EncodeURIComponent(s);
    EncodedAlphabet(s);
    forall i | 0 <= i < |e| ensures e[i] != c {
      assert IsEncodedChar(e[i]);
    }
  }

  /** Only text that needs no escaping comes out unchanged. */
  lemma {:induction false} EncodeIdentityIff(s: string)
    ensures EncodeURIComponent(s) == s <==> forall i :: 0 <= i < |s| ==> IsUnescaped(s[i])
  {
    if s != [] {
      EncodeIdentityIff(s[1..]);
      EncodeLength(s[1..]);
      var e := EncodeURIComponent(s);
      if IsUnescaped(s[0]) {
        assert e == [s[0]] + EncodeURIComponent(s[1..]);
        if e == s {
          assert EncodeURIComponent(s[1..]) == e[1..] == s[1..];
        }
        if forall i :: 0 <= i < |s| ==> IsUnescaped(s[i]) {
          assert forall i :: 0 <= i < |s[1..]| ==> IsUnescaped(s[1..][i]);
          assert s == [s[0]] + s[1..];
        }
      } else {
        assert |e| >= 3 + |s| - 1;
      }
    }
  }

  lemma {:induction false} EncodeLength(s: string)
    ensures |EncodeURIComponent(s)| >= |s|
  {
    if s != [] {
      EncodeLength(s[1..]);
    }
  }

  // ---------------------------------------------------------------------
  // Decoding a query string

  const Percent: Byte := 0x25
  const Ampersand: Byte := 0x26
  const Plus: Byte := 0x2B
  const EqualsSign: Byte := 0x3D
  const Space: Byte := 0x20

  predicate IsHexByte(b: Byte)
  {
    (0x30 <= b <= 0x39) || (0x41 <= b <= 0x46) || (0x61 <= b <= 0x66)
  }

  function HexByteValue(b: Byte): (v: int)
    requires IsHexByte(b)
    ensures 0 <= v < 16
  {
    if b <= 0x39 then b - 0x30 else if b <= 0x46 then b - 0x41 + 10 else b - 0x61 + 10
  }

  /** Percent-decode (WHATWG URL standard): `%` followed by two hexadecimal
      digits becomes that byte, everything else is copied. */
  function PercentDecode(b: seq<Byte>): seq<Byte>
  {
    if b == [] then []
    else if b[0] == Percent && |b| >= 3 && IsHexByte(b[1]) && IsHexByte(b[2]) then
      [HexByteValue(b[1]) * 16 + HexByteValue(b[2])] + PercentDecode(b[3..])
    else [b[0]] + PercentDecode(b[1..])
  }

  function ReplacePlus(b: seq<Byte>): (r: seq<Byte>)
    ensures |r| == |b|
    ensures forall i :: 0 <= i < |b| ==> r[i] == if b[i] == Plus then Space else b[i]
  {
    if b == [] then [] else [if b[0] == Plus then Space else b[0]] + ReplacePlus(b[1..])
  }

  /** One name or value of a form-urlencoded string, decoded. */
  function DecodeFormComponent(b: seq<Byte>): string
  {
    Utf8Decode(PercentDecode(ReplacePlus(b)))
  }

  /** Pieces of a byte string between the occurrences of `sep`. */
  function SplitBytes(b: seq<Byte>, sep: Byte): (r: seq<seq<Byte>>)
    ensures |r| >= 1
  {
    if b == [] then [[]]
    else
      var rest := SplitBytes(b[1..], sep);
      if b[0] == sep then [[]] + rest else [[b[0]] + rest[0]] + rest[1..]
  }

  /** Index of the first `sep` in `b`, or `|b|`. */
  function IndexOfByte(b: seq<Byte>, sep: Byte): (i: nat)
    ensures i <= |b|
    ensures i < |b| ==> b[i] == sep
    ensures sep !in b[..i]
  {
    if b == [] then 0
    else if b[0] == sep then 0
    else
      var i := IndexOfByte(b[1..], sep);
      assert b[..i + 1] == [b[0]] + b[1..][..i];
      i + 1
  }

  /** A non-empty piece `name=value`, split at its first `=` (no `=` means
      an empty value). */
  function NameValue(piece: seq<Byte>): (string, string)
  {
    var i := IndexOfByte(piece, EqualsSign);
    var value := if i < |piece| then piece[i + 1..] else [];
    (DecodeFormComponent(piece[..i]), DecodeFormComponent(value))
  }

  function Pairs(pieces: seq<seq<Byte>>): seq<(string, string)>
  {
    if pieces == [] then []
    else if pieces[0] == [] then Pairs(pieces[1..])
    else [NameValue(pieces[0])] + Pairs(pieces[1..])
  }

  /** The name/value list of a query string (without its `?`). */
  function FormParse(query: string): seq<(string, string)>
  {
    Pairs(SplitBytes(Utf8Encode(query), Ampersand))
  }

  function FirstValue(pairs: seq<(string, string)>, name: string): Option<string>
  {
    if pairs == [] then None
    else if pairs[0].0 == name then Some(pairs[0].1)
    else FirstValue(pairs[1..], name)
  }

  /** `new URLSearchParams(query).get(name)`. */
  function QueryGet(query: string, name: string): Option<string>
  {
    FirstValue(FormParse(query), name)
  }

  // ---------------------------------------------------------------------
  // The round trip

  predicate IsAsciiText(s: string)
  {
    forall i :: 0 <= i < |s| ==> s[i] as int < 0x80
  }

  /** The UTF-8 of ASCII text is its character codes. */
  lemma {:induction false} AsciiBytes(s: string)
    requires IsAsciiText(s)
    ensures |Utf8Encode(s)| == |s|
    ensures forall i :: 0 <= i < |s| ==> Utf8Encode(s)[i] == s[i] as int
  {
    if s != [] {
      AsciiBytes(s[1..]);
    }
  }

  lemma EncodedIsAscii(s: string)
    requires IsEncodedText(s)
    ensures IsAsciiText(s)
  {
  }

  lemma PercentByteDecodes(b: Byte, rest: seq<Byte>)
    ensures PercentDecode(Utf8Encode(PercentByte(b)) + rest) == [b] + PercentDecode(rest)
  {
    var t := PercentByte(b);
    AsciiBytes(t);
    var e := Utf8Encode(t);
    var x := e + rest;
    assert x[0] == Percent && IsHexByte(x[1]) && IsHexByte(x[2]);
    assert HexByteValue(x[1]) == b / 16 && HexByteValue(x[2]) == b % 16;
    assert x[3..] == rest;
  }

  lemma {:induction false} PercentBytesDecode(bs: seq<Byte>, rest: seq<Byte>)
    ensures PercentDecode(Utf8Encode(PercentBytes(bs)) + rest) == bs + PercentDecode(rest)
  {
    if bs != [] {
      var head := PercentByte(bs[0]);
      var tail := PercentBytes(bs[1..]);
      assert PercentBytes(bs) == head + tail;
      Utf8EncodeAppend(head, tail);
      assert Utf8Encode(PercentBytes(bs)) + rest == Utf8Encode(head) + (Utf8Encode(tail) + rest);
      PercentByteDecodes(bs[0], Utf8Encode(tail) + rest);
      PercentBytesDecode(bs[1..], rest);
      assert [bs[0]] + (bs[1..] + PercentDecode(rest)) == bs + PercentDecode(rest);
    } else {
      assert PercentBytes(bs) == [];
      assert Utf8Encode([]) == [];
      assert [] + rest == rest;
    }
  }

  lemma EncodeCharDecodes(c: char, rest: seq<Byte>)
    ensures PercentDecode(Utf8Encode(EncodeChar(c)) + rest) == Utf8Char(c) + PercentDecode(rest)
  {
    if IsUnescaped(c) {
      var x := Utf8Encode([c]) + rest;
      assert Utf8Encode([c]) == [c as int];
      assert x[0] != Percent;
      assert x[1..] == rest;
    } else {
      PercentBytesDecode(Utf8Char(c), rest);
    }
  }

  /** Percent-decoding the bytes of an encoded component gives the UTF-8 of
      the original text. */
  lemma {:induction false} PercentRoundTrip(s: string)
    ensures PercentDecode(Utf8Encode(EncodeURIComponent(s))) == Utf8Encode(s)
  {
    if s != [] {
      var head := EncodeChar(s[0]);
      var tail := EncodeURIComponent(s[1..]);
      Utf8EncodeAppend(head, tail);
      EncodeCharDecodes(s[0], Utf8Encode(tail));
      PercentRoundTrip(s[1..]);
    }
  }

  lemma {:induction false} ReplacePlusIdentity(b: seq<Byte>)
    requires Plus !in b
    ensures ReplacePlus(b) == b
  {
  }

  lemma EncodedLacksPlus(s: string)
    ensures Plus !in Utf8Encode(EncodeURIComponent(s))
  {
    var e := EncodeURIComponent(s);
    EncodedAlphabet(s);
    EncodedAscii(e);
    AsciiBytes(e);
    var b := Utf8Encode(e);
    forall i | 0 <= i < |b| ensures b[i] != Plus {
      assert b[i] == e[i] as int;
      assert e[i] != '+' by {
        assert IsEncodedChar(e[i]);
      }
    }
  }

  lemma EncodedAscii(e: string)
    requires IsEncodedText(e)
    ensures IsAsciiText(e)
  {
    forall i | 0 <= i < |e| ensures e[i] as int < 0x80 {
      assert IsEncodedChar(e[i]);
    }
  }

  /** Decoding an encoded component, as the form parser does, gives back
      exactly the text that was encoded: `encodeURIComponent` and
      `URLSearchParams` agree on every string. */
  lemma ComponentRoundTrip(s: string)
    ensures DecodeFormComponent(Utf8Encode(EncodeURIComponent(s))) == s
  {
    var e := EncodeURIComponent(s);
    EncodedLacksPlus(s);
    ReplacePlusIdentity(Utf8Encode(e));
    PercentRoundTrip(s);
    Utf8RoundTrip(s);
  }

  /** Plain ASCII names and values without escapes decode to themselves. */
  lemma PlainComponent(t: string)
    requires IsAsciiText(t) && forall i :: 0 <= i < |t| ==> IsUnescaped(t[i])
    ensures DecodeFormComponent(Utf8Encode(t)) == t
  {
    EncodeIdentityIff(t);
    ComponentRoundTrip(t);
  }

  lemma {:induction false} SplitBytesNoSep(b: seq<Byte>, sep: Byte)
    requires sep !in b
    ensures SplitBytes(b, sep) == [b]
  {
    if b != [] {
      SplitBytesNoSep(b[1..], sep);
      assert [b[0]] + b[1..] == b;
    }
  }

  lemma {:induction false} SplitBytesAt(a: seq<Byte>, sep: Byte, b: seq<Byte>)
    requires sep !in a
    ensures SplitBytes(a + [sep] + b, sep) == [a] + SplitBytes(b, sep)
  {
    if a == [] {
      assert a + [sep] + b == [sep] + b;
      assert ([sep] + b)[1..] == b;
    } else {
      assert (a + [sep] + b)[1..] == a[1..] + [sep] + b;
      SplitBytesAt(a[1..], sep, b);
      assert [a[0]] + a[1..] == a;
    }
  }

  lemma {:induction false} IndexOfByteAt(a: seq<Byte>, sep: Byte, b: seq<Byte>)
    requires sep !in a
    ensures IndexOfByte(a + [sep] + b, sep) == |a|
  {
    if a == [] {
      assert (a + [sep] + b)[0] == sep;
    } else {
      assert (a + [sep] + b)[1..] == a[1..] + [sep] + b;
      IndexOfByteAt(a[1..], sep, b);
    }
  }

  /** A character that ASCII text lacks is not among its bytes. */
  lemma AsciiLacks(t: string, c: char)
    requires IsAsciiText(t) && c !in t && c as int < 0x80
    ensures c as int !in Utf8Encode(t)
  {
    AsciiBytes(t);
    var b := Utf8Encode(t);
    forall i | 0 <= i < |b| ensures b[i] != c as int {
      assert b[i] == t[i] as int;
    }
  }

  lemma PieceBytes(name: string, e: string)
    ensures Utf8Encode(name + "=" + e) == Utf8Encode(name) + [EqualsSign] + Utf8Encode(e)
  {
    Utf8EncodeAppend(name, "=");
    Utf8EncodeAppend(name + "=", e);
    assert Utf8Encode("=") == [EqualsSign];
  }

  lemma NameBytes(name: string)
    requires forall i :: 0 <= i < |name| ==> IsUnescaped(name[i])
    requires IsAsciiText(name)
    ensures Ampersand !in Utf8Encode(name) && EqualsSign !in Utf8Encode(name)
  {
    assert '&' !in name && '=' !in name;
    AsciiLacks(name, '&');
    AsciiLacks(name, '=');
  }

  lemma EncodedBytes(v: string)
    ensures Ampersand !in Utf8Encode(EncodeURIComponent(v))
  {
    var e := EncodeURIComponent(v);
    EncodedAlphabet(v);
    EncodedIsAscii(e);
    assert '&' !in e;
    AsciiLacks(e, '&');
  }

  /** The bytes of `name=<encoded value>`: a non-empty piece without `&`
      whose name/value split gives back `name` and the original value. */
  lemma ParameterPiece(name: string, v: string)
    requires name != [] && IsAsciiText(name)
    requires forall i :: 0 <= i < |name| ==> IsUnescaped(name[i])
    ensures var piece := Utf8Encode(name + "=" + EncodeURIComponent(v));
      piece != [] && Ampersand !in piece && NameValue(piece) == (name, v)
  {
    var e := EncodeURIComponent(v);
    var bn, be := Utf8Encode(name), Utf8Encode(e);
    var piece := Utf8Encode(name + "=" + e);
    PieceBytes(name, e);
    NameBytes(name);
    EncodedBytes(v);
    IndexOfByteAt(bn, EqualsSign, be);
    assert piece[..|bn|] == bn;
    assert piece[|bn| + 1..] == be;
    PlainComponent(name);
    ComponentRoundTrip(v);
  }

  predicate IsPlainName(name: string)
  {
    name != [] && IsAsciiText(name) && forall i :: 0 <= i < |name| ==> IsUnescaped(name[i])
  }

  /** A query of one encoded parameter parses to exactly that name and the
      original, unencoded value. */
  lemma QueryOneParam(name: string, v: string)
    requires IsPlainName(name)
    ensures FormParse(name + "=" + EncodeURIComponent(v)) == [(name, v)]
  {
    var piece := Utf8Encode(name + "=" + EncodeURIComponent(v));
    ParameterPiece(name, v);
    SplitBytesNoSep(piece, Ampersand);
    assert Pairs([piece]) == [NameValue(piece)] + Pairs([]);
  }

  lemma JoinedBytes(t1: string, t2: string)
    ensures Utf8Encode(t1 + "&" + t2) == Utf8Encode(t1) + [Ampersand] + Utf8Encode(t2)
  {
    Utf8EncodeAppend(t1, "&");
    Utf8EncodeAppend(t1 + "&", t2);
    assert Utf8Encode("&") == [Ampersand];
  }

  lemma PairsOfTwo(p1: seq<Byte>, p2: seq<Byte>)
    requires p1 != [] && p2 != [] && Ampersand !in p1 && Ampersand !in p2
    ensures Pairs(SplitBytes(p1 + [Ampersand] + p2, Ampersand)) == [NameValue(p1), NameValue(p2)]
  {
    SplitBytesAt(p1, Ampersand, p2);
    SplitBytesNoSep(p2, Ampersand);
    assert SplitBytes(p1 + [Ampersand] + p2, Ampersand) == [p1, p2];
    assert [p1, p2][1..] == [p2];
    assert Pairs([p2]) == [NameValue(p2)] + Pairs([]);
  }

  /** A query of two encoded parameters joined by `&` parses to the two
      names and original values, in order. */
  lemma QueryTwoParams(n1: string, v1: string, n2: string, v2: string)
    requires IsPlainName(n1) && IsPlainName(n2)
    ensures FormParse(n1 + "=" + EncodeURIComponent(v1) + "&" + n2 + "=" + EncodeURIComponent(v2))
      == [(n1, v1), (n2, v2)]
  {
    var t1 := n1 + "=" + EncodeURIComponent(v1);
    var t2 := n2 + "=" + EncodeURIComponent(v2);
    var p1, p2 := Utf8Encode(t1), Utf8Encode(t2);
    RegroupLast(t1 + "&", n2, "=", EncodeURIComponent(v2));
    JoinedBytes(t1, t2);
    ParameterPiece(n1, v1);
    ParameterPiece(n2, v2);
    PairsOfTwo(p1, p2);
  }

  lemma RegroupLast<T>(a: seq<T>, b: seq<T>, c: seq<T>, d: seq<T>)
    ensures a + b + c + d == a + (b + c + d)
  {
  }

}
