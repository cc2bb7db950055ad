/**
 * JavaScript's `encodeURIComponent` (ECMA-262, section 19.2.6, URI Handling
 * Functions), which server.js applies to the text and url of a share request,
 * together with its inverse: percent-decoding as in section 2.1 of RFC 3986
 * followed by UTF-8 decoding as in section 3 of RFC 3629.
 *
 * Strings are sequences of Unicode scalar values, so the URIError that
 * `encodeURIComponent` raises on a lone UTF-16 surrogate cannot arise here.
 */
module UriComponent {

  import opened Wrappers

  type byte = b: int | 0 <= b < 0x100

  /** The characters `encodeURIComponent` copies unchanged: ASCII letters, digits and - _ . ! ~ * ' ( ) */
  predicate Unreserved(c: char) {
    ('A' <= c <= 'Z') || ('a' <= c <= 'z') || ('0' <= c <= '9') || c in "-_.!~*'()"
  }

  /** The upper-case hexadecimal digit for 0 to 15. */
  function HexDigit(n: nat): (c: char)
    requires n < 16
    ensures IsUpperHex(c) && HexValue(c) == Some(n)
  {
    if n < 10 then ('0' as int + n) as char else ('A' as int + n - 10) as char
  }

  predicate IsUpperHex(c: char) {
    ('0' <= c <= '9') || ('A' <= c <= 'F')
  }

  /** The characters an encoded component is made of. */
  predicate EncodedAlphabet(c: char) {
    Unreserved(c) || c == '%' || IsUpperHex(c)
  }

  /** The value of one hexadecimal digit; a decoder accepts both cases. */
  function HexValue(c: char): (r: Option<nat>)
    ensures r.Some? ==> r.value < 16
    ensures r.Some? <==> ('0' <= c <= '9') || ('A' <= c <= 'F') || ('a' <= c <= 'f')
  {
    if '0' <= c <= '9' then Some(c as int - '0' as int)
    else if 'A' <= c <= 'F' then Some(c as int - 'A' as int + 10)
    else if 'a' <= c <= 'f' then Some(c as int - 'a' as int + 10)
    else None
  }

  /** The UTF-8 encoding of one scalar value: one octet for ASCII, otherwise two to four. */
  function Utf8(c: char): (r: seq<byte>)
    ensures 1 <= |r| <= 4
    ensures |r| == 1 <==> c as int < 0x80
    ensures |r| == 1 ==> r[0] == c as int
    ensures |r| > 1 ==> forall i :: 0 <= i < |r| ==> r[i] >= 0x80
  {
    var cp := c as int;
    if cp < 0x80 then [cp]
    else if cp < 0x800 then [0xC0 + cp / 0x40, 0x80 + cp % 0x40]
    else if cp < 0x1_0000 then [0xE0 + cp / 0x1000, 0x80 + cp / 0x40 % 0x40, 0x80 + cp % 0x40]
    else [0xF0 + cp / 0x4_0000, 0x80 + cp / 0x1000 % 0x40, 0x80 + cp / 0x40 % 0x40, 0x80 + cp % 0x40]
  }

  /** The UTF-8 encoding of a whole string. */
  function Utf8Encode(s: string): seq<byte> {
    if s == [] then [] else Utf8(s[0]) + Utf8Encode(s[1..])
  }

  /** Each octet written as `%` and two upper-case hexadecimal digits. */
  function Escape(bs: seq<byte>): (r: string)
    ensures |r| == 3 * |bs|
  {
    if bs == [] then []
    else Triplet(bs[0]) + Escape(bs[1..])
  }

  /** One code point as `encodeURIComponent` writes it. */
  function EncodeChar(c: char): string {
    if Unreserved(c) then [c] else Escape(Utf8(c))
  }

  /**
   * `encodeURIComponent(s)`. Its output is a sequence of unreserved
   * characters and `%XX` triplets, so in particular it never holds a query
   * delimiter.
   */
  function Encode(s: string): (r: string)
    ensures EncodedForm(r)
    ensures |r| >= |s|
  {
    if s == [] then []
    else
      var rest := Encode(s[1..]);
      EncodeCharForm(s[0], rest);
      EncodeChar(s[0]) + rest
  }

  /** A string made of unreserved characters and `%XX` triplets with upper-case digits. */
  ghost predicate EncodedForm(t: string)
    decreases |t|
  {
    t == []
    || (Unreserved(t[0]) && EncodedForm(t[1..]))
    || (|t| >= 3 && t[0] == '%' && IsUpperHex(t[1]) && IsUpperHex(t[2]) && EncodedForm(t[3..]))
  }

  lemma {:induction false} EscapeForm(bs: seq<byte>, rest: string)
    requires EncodedForm(rest)
    ensures EncodedForm(Escape(bs) + rest)
  {
    if bs != [] {
      EscapeForm(bs[1..], rest);
      EscapeCons(bs, rest);
      TripletForm(bs[0], Escape(bs[1..]) + rest);
    } else {
      assert Escape(bs) + rest == rest;
    }
  }

  /** The `%XX` triplet of one octet. */
  function Triplet(b: byte): string {
    ['%', HexDigit(b / 16), HexDigit(b % 16)]
  }

  lemma EscapeCons(bs: seq<byte>, rest: string)
    requires bs != []
    ensures Escape(bs) + rest == Triplet(bs[0]) + (Escape(bs[1..]) + rest)
  {
  }

  lemma TripletForm(b: byte, t: string)
    requires EncodedForm(t)
    ensures EncodedForm(Triplet(b) + t)
  {
    assert (Triplet(b) + t)[3..] == t;
  }

  lemma EncodeCharForm(c: char, rest: string)
    requires EncodedForm(rest)
    ensures EncodedForm(EncodeChar(c) + rest)
    ensures |EncodeChar(c)| >= 1
  {
    if Unreserved(c) {
      assert ([c] + rest)[1..] == rest;
    } else {
      EscapeForm(Utf8(c), rest);
    }
  }

  /** Every character of a string in encoded form is an unreserved character, `%` or an upper-case hex digit. */
  lemma {:induction false} EncodedFormAlphabet(t: string)
    requires EncodedForm(t)
    ensures forall i :: 0 <= i < |t| ==> EncodedAlphabet(t[i])
    decreases |t|
  {
    if t != [] {
      if Unreserved(t[0]) && EncodedForm(t[1..]) {
        EncodedFormAlphabet(t[1..]);
        assert forall i :: 1 <= i < |t| ==> t[i] == t[1..][i - 1];
      } else {
        EncodedFormAlphabet(t[3..]);
        assert forall i :: 3 <= i < |t| ==> t[i] == t[3..][i - 3];
      }
    }
  }

  /**
   * No query or fragment delimiter can come out of `encodeURIComponent`:
   * `&`, `=`, `?` and `#` all occur nowhere in its output.
   */
  lemma EncodeHasNoDelimiter(s: string)
    ensures forall i :: 0 <= i < |Encode(s)| ==> EncodedAlphabet(Encode(s)[i])
    ensures '&' !in Encode(s) && '=' !in Encode(s) && '?' !in Encode(s) && '#' !in Encode(s)
  {
    var t := Encode(s);
    EncodedFormAlphabet(t);
    forall i | 0 <= i < |t|
      ensures t[i] != '&' && t[i] != '=' && t[i] != '?' && t[i] != '#'
    {
      DelimiterNotInAlphabet(t[i]);
    }
  }

  lemma DelimiterNotInAlphabet(c: char)
    requires EncodedAlphabet(c)
    ensures c != '&' && c != '=' && c != '?' && c != '#'
  {
    var marks := "-_.!~*'()";
    assert c in marks ==> exists k :: 0 <= k < |marks| && marks[k] == c;
  }

  /** `encodeURIComponent` leaves a string alone exactly when every character of it is unreserved. */
  lemma {:induction false} EncodeIdentity(s: string)
    ensures Encode(s) == s <==> forall i :: 0 <= i < |s| ==> Unreserved(s[i])
  {
    if s != [] {
      EncodeIdentity(s[1..]);
      if Unreserved(s[0]) {
        assert Encode(s) == [s[0]] + Encode(s[1..]);
        assert s == [s[0]] + s[1..];
        assert forall i :: 1 <= i < |s| ==> s[i] == s[1..][i - 1];
      } else {
        assert |Encode(s)| >= 3 + |s[1..]|;
      }
    }
  }

  // ----- the inverse: percent-decoding, then UTF-8 decoding -----

  /** Prepends a decoded prefix to the result of decoding the rest. */
  function Prepend<T>(prefix: seq<T>, r: Option<seq<T>>): Option<seq<T>> {
    match r
    case None => None
    case Some(tail) => Some(prefix + tail)
  }

  /**
   * Percent-decoding (section 2.1 of RFC 3986): `%` and two hexadecimal
   * digits of either case stand for one octet, an ASCII character for its own
   * code; anything else (a stray `%`, a non-ASCII character) is malformed.
   */
  function PercentDecode(t: string): (r: Option<seq<byte>>)
    decreases |t|
  {
    if t == [] then Some([])
    else if t[0] == '%' then
      if |t| >= 3 && HexValue(t[1]).Some? && HexValue(t[2]).Some? then
        Prepend([16 * HexValue(t[1]).value + HexValue(t[2]).value], PercentDecode(t[3..]))
      else None
    else if t[0] as int < 0x80 then Prepend([t[0] as int], PercentDecode(t[1..]))
    else None
  }

  /** The octet at index i, or 0 past the end (then never read as a continuation octet). */
  function At(bs: seq<byte>, i: nat): int {
    if i < |bs| then bs[i] else 0
  }

  predicate Continuation(b: byte) {
    0x80 <= b < 0xC0
  }

  /**
   * The first scalar value of a UTF-8 octet sequence and the number of octets
   * it takes; overlong forms, surrogates and values past U+10FFFF are refused.
   */
  function Utf8DecodeFirst(bs: seq<byte>): (r: Option<(char, nat)>)
    requires |bs| > 0
    ensures r.Some? ==> 1 <= r.value.1 <= |bs|
  {
    var b0, b1, b2, b3 := At(bs, 0), At(bs, 1), At(bs, 2), At(bs, 3);
    if b0 < 0x80 then Some((b0 as char, 1))
    else if 0xC2 <= b0 < 0xE0 && |bs| >= 2 && Continuation(bs[1]) then
      Some((((b0 - 0xC0) * 0x40 + (b1 - 0x80)) as char, 2))
    else if 0xE0 <= b0 < 0xF0 && |bs| >= 3 && Continuation(bs[1]) && Continuation(bs[2]) then
      var cp := (b0 - 0xE0) * 0x1000 + (b1 - 0x80) * 0x40 + (b2 - 0x80);
      if 0x800 <= cp && !(0xD800 <= cp < 0xE000) then Some((cp as char, 3)) else None
    else if 0xF0 <= b0 < 0xF5 && |bs| >= 4 && Continuation(bs[1]) && Continuation(bs[2]) && Continuation(bs[3]) then
      var cp := (b0 - 0xF0) * 0x4_0000 + (b1 - 0x80) * 0x1000 + (b2 - 0x80) * 0x40 + (b3 - 0x80);
      if 0x1_0000 <= cp <= 0x10_FFFF then Some((cp as char, 4)) else None
    else None
  }

  /** UTF-8 decoding of a whole octet sequence; `None` when it is not well-formed UTF-8. */
  function Utf8Decode(bs: seq<byte>): Option<string>
    decreases |bs|
  {
    if bs == [] then Some([])
    else
      match Utf8DecodeFirst(bs)
      case None => None
      case Some((c, n)) => Prepend([c], Utf8Decode(bs[n..]))
  }

  /** `decodeURIComponent` restricted to what `encodeURIComponent` can produce and to ASCII input. */
  function Decode(t: string): Option<string> {
    match PercentDecode(t)
    case None => None
    case Some(bs) => Utf8Decode(bs)
  }

  // ----- the round trip -----

  lemma {:induction false} EscapeDecodes(bs: seq<byte>, rest: string)
    ensures PercentDecode(Escape(bs) + rest) == Prepend(bs, PercentDecode(rest))
  {
    if bs == [] {
      assert Escape(bs) + rest == rest;
      PrependNothing(PercentDecode(rest));
    } else {
      EscapeCons(bs, rest);
      TripletDecodes(bs[0], Escape(bs[1..]) + rest);
      EscapeDecodes(bs[1..], rest);
      PrependTwice([bs[0]], bs[1..], PercentDecode(rest));
      assert [bs[0]] + bs[1..] == bs;
    }
  }

  lemma TripletDecodes(b: byte, t: string)
    ensures PercentDecode(Triplet(b) + t) == Prepend([b], PercentDecode(t))
  {
    assert (Triplet(b) + t)[3..] == t;
  }

  lemma PrependNothing<T>(r: Option<seq<T>>)
    ensures Prepend([], r) == r
  {
    match r
    case None =>
    case Some(tail) => assert [] + tail == tail;
  }

  lemma PrependTwice<T>(a: seq<T>, b: seq<T>, r: Option<seq<T>>)
    ensures Prepend(a, Prepend(b, r)) == Prepend(a + b, r)
  {
    match r
    case None =>
    case Some(tail) => assert a + (b + tail) == (a + b) + tail;
  }

  /** Percent-decoding the output of `encodeURIComponent` gives the UTF-8 octets of its input. */
  lemma {:induction false} PercentDecodeEncode(s: string)
    ensures PercentDecode(Encode(s)) == Some(Utf8Encode(s))
  {
    if s != [] {
      var c := s[0];
      PercentDecodeEncode(s[1..]);
      if Unreserved(c) {
        var t := [c] + Encode(s[1..]);
        assert t[1..] == Encode(s[1..]);
        assert Utf8(c) == [c as int];
      } else {
        EscapeDecodes(Utf8(c), Encode(s[1..]));
      }
    }
  }

  lemma Utf8DecodeFirstOf(c: char, rest: seq<byte>)
    ensures Utf8DecodeFirst(Utf8(c) + rest) == Some((c, |Utf8(c)|))
  {
    var cp := c as int;
    var bs := Utf8(c) + rest;
    if cp < 0x80 {
    } else if cp < 0x800 {
      assert (cp / 0x40) * 0x40 + cp % 0x40 == cp;
    } else if cp < 0x1_0000 {
      Split3(cp);
    } else {
      Split4(cp);
    }
  }

  lemma Split3(cp: int)
    requires 0 <= cp < 0x1_0000
    ensures (cp / 0x1000) * 0x1000 + (cp / 0x40 % 0x40) * 0x40 + cp % 0x40 == cp
  {
    var q := cp / 0x40;
    assert q * 0x40 + cp % 0x40 == cp;
    assert (q / 0x40) * 0x40 + q % 0x40 == q;
    assert q / 0x40 == cp / 0x1000;
  }

  lemma Split4(cp: int)
    requires 0 <= cp
    ensures (cp / 0x4_0000) * 0x4_0000 + (cp / 0x1000 % 0x40) * 0x1000 + (cp / 0x40 % 0x40) * 0x40 + cp % 0x40 == cp
  {
    var q := cp / 0x40;
    var q2 := q / 0x40;
    assert q * 0x40 + cp % 0x40 == cp;
    assert q2 * 0x40 + q % 0x40 == q;
    assert (q2 / 0x40) * 0x40 + q2 % 0x40 == q2;
    assert q2 == cp / 0x1000;
    assert q2 / 0x40 == cp / 0x4_0000;
  }

  lemma {:induction false} Utf8RoundTrip(s: string)
    ensures Utf8Decode(Utf8Encode(s)) == Some(s)
  {
    if s != [] {
      var bs := Utf8Encode(s);
      Utf8DecodeFirstOf(s[0], Utf8Encode(s[1..]));
      assert bs[|Utf8(s[0])|..] == Utf8Encode(s[1..]);
      Utf8RoundTrip(s[1..]);
      assert [s[0]] + s[1..] == s;
    }
  }

  /** Decoding the output of `encodeURIComponent` gives back its input. */
  lemma DecodeEncode(s: string)
    ensures Decode(Encode(s)) == Some(s)
  {
    PercentDecodeEncode(s);
    Utf8RoundTrip(s);
  }

  /** Different strings never encode alike, a consequence of the round trip. */
  lemma EncodeInjective(s1: string, s2: string)
    ensures Encode(s1) == Encode(s2) <==> s1 == s2
  {
    DecodeEncode(s1);
    DecodeEncode(s2);
  }
}
