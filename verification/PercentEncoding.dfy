/**
 encodeURIComponent and decodeURIComponent on well-formed strings: UTF-8 as in section 3 of RFC 3629,
 escaped as in section 2.1 of RFC 3986.
 */
module PercentEncoding {
  import opened Wrappers
  import opened Text

  type Byte = b: nat | b < 256

  predicate IsDigit(c: char) {
    '0' <= c <= '9'
  }

  /** The characters left alone: letters, digits and the marks of section 2.3 of RFC 2396. */
  predicate IsUnreserved(c: char) {
    'A' <= c <= 'Z' || 'a' <= c <= 'z' || IsDigit(c) || c in "-_.!~*'()"
  }

  // ----- bytes and hex digits -----

  function HexDigit(n: nat): (c: char)
    requires n < 16
    ensures IsDigit(c) || 'A' <= c <= 'F'
    ensures HexValue(c) == Some(n)
  {
    if n < 10 then ('0' as int + n) as char else ('A' as int + n - 10) as char
  }

  function HexValue(c: char): Option<nat> {
    if IsDigit(c) then Some(c as int - '0' as int)
    else if 'A' <= c <= 'F' then Some(c as int - 'A' as int + 10)
    else if 'a' <= c <= 'f' then Some(c as int - 'a' as int + 10)
    else None
  }

  function Escape(b: Byte): (s: string)
    ensures |s| == 3
  {
    ['%', HexDigit(b / 16), HexDigit(b % 16)]
  }

  /** The byte escaped at the start of s, if there is one. */
  function Unescape(s: string): (b: Option<Byte>)
  {
    if |s| < 3 || s[0] != '%' || HexValue(s[1]).None? || HexValue(s[2]).None? then None
    else
      assert HexValue(s[1]).value < 16 && HexValue(s[2]).value < 16;
      Some(HexValue(s[1]).value * 16 + HexValue(s[2]).value)
  }

  lemma UnescapeEscape(b: Byte, rest: string)
    ensures Unescape(Escape(b) + rest) == Some(b)
    ensures (Escape(b) + rest)[3..] == rest
  {
  }

  function EscapeAll(bs: seq<Byte>): (s: string) {
    if bs == [] then "" else Escape(bs[0]) + EscapeAll(bs[1..])
  }

  // ----- UTF-8 -----

  function Utf8(c: char): (bs: seq<Byte>)
    ensures 1 <= |bs| <= 4
  {
    var n := c as int;
    if n < 0x80 then [n]
    else if n < 0x800 then [0xC0 + n / 0x40, Tail(n)]
    else if n < 0x1_0000 then [0xE0 + n / 0x40 / 0x40, Tail(n / 0x40), Tail(n)]
    else [0xF0 + n / 0x40 / 0x40 / 0x40, Tail(n / 0x40 / 0x40), Tail(n / 0x40), Tail(n)]
  }

  /** A continuation byte carries six bits. */
  function Tail(n: nat): Byte {
    0x80 + n % 0x40
  }

  predicate IsTail(b: Byte) {
    0x80 <= b < 0xC0
  }

  /** How many bytes a character takes that starts with b; 0 where none does. */
  function Width(b: Byte): nat {
    if b < 0x80 then 1
    else if b < 0xC0 then 0
    else if b < 0xE0 then 2
    else if b < 0xF0 then 3
    else if b < 0xF8 then 4
    else 0
  }

  /** n with the six bits of each continuation byte appended. */
  function Joined(n: nat, tails: seq<Byte>): nat
    requires forall b <- tails :: IsTail(b)
    decreases |tails|
  {
    if tails == [] then n
    else
      assert IsTail(tails[0]);
      Joined(n * 0x40 + tails[0] - 0x80, tails[1..])
  }

  /** What marks a leading byte with so many continuation bytes after it. */
  function LeadOffset(tails: nat): nat {
    if tails == 0 then 0 else if tails == 1 then 0xC0 else if tails == 2 then 0xE0 else 0xF0
  }

  /** The smallest character that needs so many continuation bytes. */
  function Least(tails: nat): nat {
    if tails == 0 then 0 else if tails == 1 then 0x80 else if tails == 2 then 0x800 else 0x1_0000
  }

  predicate IsScalar(n: nat) {
    n < 0xD800 || 0xE000 <= n < 0x11_0000
  }

  /** The character these bytes are, unless they are overlong, a surrogate or out of range. */
  function Utf8Decode(lead: Byte, tails: seq<Byte>): Option<char>
    requires Width(lead) == 1 + |tails| && forall b <- tails :: IsTail(b)
  {
    var n := Joined(lead - LeadOffset(|tails|), tails);
    if Least(|tails|) <= n && IsScalar(n) then Some(n as char) else None
  }

  lemma Utf8RoundTrip(c: char)
    ensures var bs := Utf8(c);
      && Width(bs[0]) == |bs|
      && (forall b <- bs[1..] :: IsTail(b))
      && Utf8Decode(bs[0], bs[1..]) == Some(c)
  {
    var n, bs := c as int, Utf8(c);
    assert IsScalar(n);
    if |bs| == 2 {
      assert bs[1..] == [Tail(n)];
      assert Joined(n / 0x40, [Tail(n)]) == Joined(n, []);
    } else if |bs| == 3 {
      assert bs[1..] == [Tail(n / 0x40), Tail(n)];
      assert Joined(n / 0x40 / 0x40, bs[1..]) == Joined(n / 0x40, [Tail(n)]) == Joined(n, []);
    } else if |bs| == 4 {
      assert bs[1..] == [Tail(n / 0x40 / 0x40), Tail(n / 0x40), Tail(n)];
      assert Joined(n / 0x40 / 0x40 / 0x40, bs[1..]) == Joined(n / 0x40 / 0x40, [Tail(n / 0x40), Tail(n)])
        == Joined(n / 0x40, [Tail(n)]) == Joined(n, []);
    }
  }

  // ----- whole strings -----

  function EncodeChar(c: char): string {
    if IsUnreserved(c) then [c] else EscapeAll(Utf8(c))
  }

  function Encode(s: string): string {
    if s == "" then "" else EncodeChar(s[0]) + Encode(s[1..])
  }

  /** `count` escaped continuation bytes at the start of s. */
  function Tails(s: string, count: nat): (bs: Option<seq<Byte>>)
    ensures bs.Some? ==> |bs.value| == count && 3 * count <= |s| && forall b <- bs.value :: IsTail(b)
  {
    if count == 0 then Some([])
    else
      var b := Unescape(s);
      if b.None? || !IsTail(b.value) then None
      else
        var rest := Tails(s[3..], count - 1);
        if rest.None? then None else Some([b.value] + rest.value)
  }

  /** None where decodeURIComponent throws. */
  function Decode(s: string): Option<string>
    decreases |s|
  {
    if s == "" then Some("")
    else if s[0] != '%' then Prepend(s[0], Decode(s[1..]))
    else
      var lead := Unescape(s);
      if lead.None? || Width(lead.value) == 0 then None
      else
        var tails := Tails(s[3..], Width(lead.value) - 1);
        if tails.None? then None
        else
          var c := Utf8Decode(lead.value, tails.value);
          if c.None? then None else Prepend(c.value, Decode(s[3 * Width(lead.value)..]))
  }

  function Prepend(c: char, s: Option<string>): Option<string> {
    if s.None? then None else Some([c] + s.value)
  }

  // ----- round trip -----

  lemma {:induction false} TailsOfEscaped(bs: seq<Byte>, rest: string)
    requires forall b <- bs :: IsTail(b)
    ensures Tails(EscapeAll(bs) + rest, |bs|) == Some(bs)
    ensures |EscapeAll(bs)| == 3 * |bs|
  {
    if bs != [] {
      var after := EscapeAll(bs[1..]) + rest;
      assert EscapeAll(bs) + rest == Escape(bs[0]) + after;
      UnescapeEscape(bs[0], after);
      TailsOfEscaped(bs[1..], rest);
      assert [bs[0]] + bs[1..] == bs;
    }
  }

  lemma DecodeEscaped(c: char, rest: string)
    ensures Decode(EscapeAll(Utf8(c)) + rest) == Prepend(c, Decode(rest))
  {
    var bs := Utf8(c);
    Utf8RoundTrip(c);
    var after := EscapeAll(bs[1..]) + rest;
    var s := EscapeAll(bs) + rest;
    assert s == Escape(bs[0]) + after;
    UnescapeEscape(bs[0], after);
    assert s[0] == '%';
    TailsOfEscaped(bs[1..], rest);
    assert s[3 * |bs|..] == after[3 * |bs[1..]|..] == rest;
  }

  lemma DecodeChar(c: char, rest: string)
    ensures Decode(EncodeChar(c) + rest) == Prepend(c, Decode(rest))
  {
    if IsUnreserved(c) {
      assert ([c] + rest)[1..] == rest;
    } else {
      DecodeEscaped(c, rest);
    }
  }

  /** Decoding undoes encoding, for every string. */
  lemma {:induction false} DecodeEncode(s: string)
    ensures Decode(Encode(s)) == Some(s)
  {
    if s != "" {
      DecodeChar(s[0], Encode(s[1..]));
      DecodeEncode(s[1..]);
      assert [s[0]] + s[1..] == s;
    }
  }

  predicate IsPlain(c: char) {
    IsUnreserved(c) || c == '%'
  }

  lemma {:induction false} EscapedIsPlain(bs: seq<Byte>)
    ensures forall c <- EscapeAll(bs) :: IsPlain(c)
  {
    if bs != [] {
      EscapedIsPlain(bs[1..]);
    }
  }

  /** Nothing but unreserved characters and '%', so no delimiter of a URL and no white space. */
  lemma {:induction false} EncodedIsPlain(s: string)
    ensures forall c <- Encode(s) :: IsPlain(c)
    ensures '@' !in Encode(s) && ':' !in Encode(s) && '\n' !in Encode(s)
  {
    if s != "" {
      EscapedIsPlain(Utf8(s[0]));
      EncodedIsPlain(s[1..]);
    }
  }

  // ----- spelled out -----

  const UNRESERVED := UPPER + LOWER + DIGITS + "-_.!~*'()"

  /** These 71 characters stand for themselves; any other one becomes the escapes of its bytes. */
  lemma CharIsEncoded(c: char)
    ensures EncodeChar(c) == if c in UNRESERVED then [c] else EscapeAll(Utf8(c))
  {
    UnreservedIsListed(c);
  }

  lemma UnreservedIsListed(c: char)
    ensures IsUnreserved(c) <==> c in UNRESERVED
  {
    UpperIsListed(c);
    LowerIsListed(c);
    DigitIsListed(c);
  }

  /** An escape is a percent sign and two upper-case hexadecimal digits. */
  lemma EscapeIsSpelled(b: Byte)
    ensures Escape(b) == ['%', "0123456789ABCDEF"[b / 16], "0123456789ABCDEF"[b % 16]]
  {
  }

  /** One character of each width. */
  lemma WidthsAreSpelled()
    ensures Utf8('@') == [0x40]
    ensures Utf8('\U{E9}') == [0xC3, 0xA9]
    ensures Utf8('\U{20AC}') == [0xE2, 0x82, 0xAC]
    ensures Utf8('\U{1F600}') == [0xF0, 0x9F, 0x98, 0x80]
  {
  }

  /** Characters are encoded one by one, in order. */
  lemma {:induction false} EncodeIsCharwise(s: string, t: string)
    ensures Encode(s + t) == Encode(s) + Encode(t)
    ensures |s| == 1 ==> Encode(s) == EncodeChar(s[0])
  {
    if s == "" {
      assert s + t == t;
    } else {
      assert (s + t)[1..] == s[1..] + t;
      EncodeIsCharwise(s[1..], t);
    }
  }

  /** Both cases of hexadecimal digits are read. */
  lemma DigitIsRead(i: nat)
    requires i < 16
    ensures HexValue("0123456789ABCDEF"[i]) == Some(i)
    ensures HexValue("0123456789abcdef"[i]) == Some(i)
  {
  }

  /** Two of them after a percent sign are a byte. */
  lemma EscapeIsRead(x: char, y: char, rest: string)
    requires HexValue(x).Some? && HexValue(y).Some?
    ensures Unescape(['%', x, y] + rest) == Some(HexValue(x).value * 16 + HexValue(y).value)
  {
  }

  /** Whatever is not a percent sign stands for itself; a percent sign without two digits throws. */
  lemma DecodeCharwise(c: char, rest: string)
    ensures c != '%' ==> Decode([c] + rest) == Prepend(c, Decode(rest))
    ensures c == '%' && (|rest| < 2 || HexValue(rest[0]).None? || HexValue(rest[1]).None?) ==> Decode([c] + rest).None?
  {
    assert ([c] + rest)[1..] == rest;
  }

  lemma DecodeSequence(lead: Byte, tails: seq<Byte>)
    requires lead >= 0x80 && Width(lead) == 1 + |tails| && forall b <- tails :: IsTail(b)
    ensures var c := Utf8Decode(lead, tails);
      Decode(EscapeAll([lead] + tails)) == if c.None? then None else Some([c.value])
  {
    assert ([lead] + tails)[1..] == tails;
    var s := Escape(lead) + EscapeAll(tails);
    assert EscapeAll([lead] + tails) == s;
    UnescapeEscape(lead, EscapeAll(tails));
    assert EscapeAll(tails) + "" == EscapeAll(tails);
    TailsOfEscaped(tails, "");
    DecodeLead(s, lead, tails);
    assert forall c: char :: [c] + "" == [c];
  }

  lemma DecodeLead(s: string, lead: Byte, tails: seq<Byte>)
    requires lead >= 0x80 && Width(lead) == 1 + |tails| && forall b <- tails :: IsTail(b)
    requires |s| == 3 * Width(lead) && Unescape(s) == Some(lead) && Tails(s[3..], |tails|) == Some(tails)
    ensures var c := Utf8Decode(lead, tails); Decode(s) == if c.None? then None else Some([c.value] + "")
  {
    assert s[0] == '%';
    assert s[3 * Width(lead)..] == "";
    assert Decode("") == Some("");
  }

  /** A byte that starts no character throws, alone or before anything else. */
  lemma StrayByteThrows(b: Byte, rest: string)
    requires 0x80 <= b < 0xC0 || b >= 0xF8
    ensures Decode(Escape(b) + rest).None?
  {
    UnescapeEscape(b, rest);
  }

  lemma TwoBytes(a: Byte, b: Byte)
    requires 0xC0 <= a < 0xE0 && 0x80 <= b < 0xC0
    ensures var n := (a - 0xC0) * 0x40 + (b - 0x80);
      Decode(EscapeAll([a, b])) == if n < 0x80 then None else Some([n as char])
  {
    DecodeSequence(a, [b]);
    assert Joined(a - 0xC0, [b]) == Joined((a - 0xC0) * 0x40 + b - 0x80, []);
  }

  /** Overlong forms and surrogates throw. */
  lemma ThreeBytes(a: Byte, b: Byte, c: Byte)
    requires 0xE0 <= a < 0xF0 && 0x80 <= b < 0xC0 && 0x80 <= c < 0xC0
    ensures var n := ((a - 0xE0) * 0x40 + (b - 0x80)) * 0x40 + (c - 0x80);
      Decode(EscapeAll([a, b, c])) == if n < 0x800 || 0xD800 <= n < 0xE000 then None else Some([n as char])
  {
    DecodeSequence(a, [b, c]);
    assert [a] + [b, c] == [a, b, c] && [b, c][1..] == [c];
    var n := (a - 0xE0) * 0x40 + b - 0x80;
    assert Joined(a - 0xE0, [b, c]) == Joined(n, [c]) == Joined(n * 0x40 + c - 0x80, []);
  }

  /** Overlong forms and numbers beyond the last character throw. */
  lemma FourBytes(a: Byte, b: Byte, c: Byte, d: Byte)
    requires 0xF0 <= a < 0xF8 && 0x80 <= b < 0xC0 && 0x80 <= c < 0xC0 && 0x80 <= d < 0xC0
    ensures var n := (((a - 0xF0) * 0x40 + (b - 0x80)) * 0x40 + (c - 0x80)) * 0x40 + (d - 0x80);
      Decode(EscapeAll([a, b, c, d])) == if n < 0x1_0000 || n >= 0x11_0000 then None else Some([n as char])
  {
    DecodeSequence(a, [b, c, d]);
    assert [a] + [b, c, d] == [a, b, c, d] && [b, c, d][1..] == [c, d] && [c, d][1..] == [d];
    var n := (a - 0xF0) * 0x40 + b - 0x80;
    var m := n * 0x40 + c - 0x80;
    assert Joined(a - 0xF0, [b, c, d]) == Joined(n, [c, d]) == Joined(m, [d]) == Joined(m * 0x40 + d - 0x80, []);
  }
}
