/** The string operations the wizard uses, as JavaScript defines them. */
module Text {
  import opened Wrappers

  // ----- letters and digits -----

  const UPPER := "ABCDEFGHIJKLMNOPQRSTUVWXYZ"
  const LOWER := "abcdefghijklmnopqrstuvwxyz"
  const DIGITS := "0123456789"
  lemma UpperIsListed(c: char)
    ensures 'A' <= c <= 'Z' <==> c in UPPER
  {
    assert |UPPER| == 26 && forall i :: 0 <= i < 26 ==> UPPER[i] == ('A' as int + i) as char;
    if 'A' <= c <= 'Z' {
      assert UPPER[c as int - 'A' as int] == c;
    }
  }

  lemma LowerIsListed(c: char)
    ensures 'a' <= c <= 'z' <==> c in LOWER
  {
    assert |LOWER| == 26 && forall i :: 0 <= i < 26 ==> LOWER[i] == ('a' as int + i) as char;
    if 'a' <= c <= 'z' {
      assert LOWER[c as int - 'a' as int] == c;
    }
  }

  lemma DigitIsListed(c: char)
    ensures '0' <= c <= '9' <==> c in DIGITS
  {
    assert |DIGITS| == 10 && forall i :: 0 <= i < 10 ==> DIGITS[i] == ('0' as int + i) as char;
    if '0' <= c <= '9' {
      assert DIGITS[c as int - '0' as int] == c;
    }
  }

  // ----- cutting at a character -----

  /** The text before and after the first c. */
  function Cut(s: string, c: char): (r: Option<(string, string)>)
    ensures r.None? ==> c !in s
    ensures r.Some? ==> c !in r.value.0 && s == r.value.0 + [c] + r.value.1
  {
    if s == "" then None
    else if s[0] == c then Some(("", s[1..]))
    else
      var rest := Cut(s[1..], c);
      if rest.None? then None else Some(([s[0]] + rest.value.0, rest.value.1))
  }

  lemma {:induction false} CutAtFirst(before: string, c: char, after: string)
    requires c !in before
    ensures Cut(before + [c] + after, c) == Some((before, after))
  {
    if before == "" {
      assert before + [c] + after == [c] + after;
    } else {
      var s := before + [c] + after;
      assert s[1..] == before[1..] + [c] + after;
      CutAtFirst(before[1..], c, after);
      assert [before[0]] + before[1..] == before;
    }
  }

  // ----- splitting at every separator -----

  function Split(s: string, sep: char): (parts: seq<string>)
    ensures |parts| > 0
    ensures forall part <- parts :: sep !in part
  {
    if s == "" then [""]
    else if s[0] == sep then [""] + Split(s[1..], sep)
    else
      var rest := Split(s[1..], sep);
      [[s[0]] + rest[0]] + rest[1..]
  }

  function Join(parts: seq<string>, sep: char): string
    requires |parts| > 0
  {
    if |parts| == 1 then parts[0] else parts[0] + [sep] + Join(parts[1..], sep)
  }

  lemma {:induction false} SplitPart(part: string, sep: char)
    requires sep !in part
    ensures Split(part, sep) == [part]
  {
    if part != "" {
      SplitPart(part[1..], sep);
      assert [part[0]] + part[1..] == part;
    }
  }

  lemma {:induction false} SplitFirst(part: string, sep: char, rest: string)
    requires sep !in part
    ensures Split(part + [sep] + rest, sep) == [part] + Split(rest, sep)
  {
    var s := part + [sep] + rest;
    if part == "" {
      assert s[1..] == rest;
    } else {
      assert s[1..] == part[1..] + [sep] + rest;
      SplitFirst(part[1..], sep, rest);
      assert [part[0]] + part[1..] == part;
    }
  }

  /** Splitting undoes joining where no part holds the separator. */
  lemma {:induction false} SplitJoin(parts: seq<string>, sep: char)
    requires |parts| > 0 && forall part <- parts :: sep !in part
    ensures Split(Join(parts, sep), sep) == parts
  {
    if |parts| == 1 {
      SplitPart(parts[0], sep);
    } else {
      SplitFirst(parts[0], sep, Join(parts[1..], sep));
      SplitJoin(parts[1..], sep);
    }
  }

  // ----- trimming -----

  predicate IsSpace(c: char) {
    || '\t' <= c <= '\r'
    || c == ' ' || c == '\U{A0}' || c == '\U{1680}'
    || '\U{2000}' <= c <= '\U{200A}'
    || c == '\U{2028}' || c == '\U{2029}' || c == '\U{202F}' || c == '\U{205F}' || c == '\U{3000}' || c == '\U{FEFF}'
  }

  /** White space and line terminators, one by one. */
  const WHITE := "\t\n\U{B}\U{C}\r \U{A0}\U{1680}\U{2000}\U{2001}\U{2002}\U{2003}\U{2004}\U{2005}\U{2006}"
    + "\U{2007}\U{2008}\U{2009}\U{200A}\U{2028}\U{2029}\U{202F}\U{205F}\U{3000}\U{FEFF}"

  lemma SpacesAreWhite(c: char)
    ensures IsSpace(c) <==> c in WHITE
  {
    var w := WHITE;
    assert |w| == 25;
    if c in w {
      var i :| 0 <= i < |w| && w[i] == c;
    }
    if IsSpace(c) {
      SpaceIsListed(c);
    }
  }

  lemma SpaceIsListed(c: char)
    requires IsSpace(c)
    ensures c in WHITE
  {
    var n, w := c as int, WHITE;
    var i :=
      if n < 0x20 then n - 9 else if n == 0x20 then 5 else if n == 0xA0 then 6 else if n == 0x1680 then 7
      else if n <= 0x200A then n - 0x2000 + 8 else if n <= 0x2029 then n - 0x2028 + 19
      else if n == 0x202F then 21 else if n == 0x205F then 22 else if n == 0x3000 then 23 else 24;
    assert w[i] == c;
  }

  function TrimStart(s: string): (t: string)
    ensures forall c <- t :: c in s
    ensures t != "" ==> !IsSpace(t[0])
  {
    if s != "" && IsSpace(s[0]) then TrimStart(s[1..]) else s
  }

  function TrimEnd(s: string): (t: string)
    ensures t <= s
    ensures t != "" ==> !IsSpace(t[|t| - 1])
  {
    if s != "" && IsSpace(s[|s| - 1]) then TrimEnd(s[..|s| - 1]) else s
  }

  function Trim(s: string): (t: string)
    ensures forall c <- t :: c in s
  {
    TrimEnd(TrimStart(s))
  }

  predicate IsTrimmed(s: string) {
    s == "" || (!IsSpace(s[0]) && !IsSpace(s[|s| - 1]))
  }

  lemma {:induction false} TrimEndAfter(s: string, t: string)
    requires s != "" && !IsSpace(s[|s| - 1])
    ensures TrimEnd(s + t) == s + TrimEnd(t)
  {
    if t != "" && IsSpace(t[|t| - 1]) {
      assert (s + t)[..|s + t| - 1] == s + t[..|t| - 1];
      TrimEndAfter(s, t[..|t| - 1]);
    } else {
      assert t == "" ==> s + t == s;
    }
  }

  lemma {:induction false} TrimStartShortens(s: string)
    ensures |TrimStart(s)| <= |s|
    ensures TrimStart(s) == s <==> s == "" || !IsSpace(s[0])
  {
    if s != "" && IsSpace(s[0]) {
      TrimStartShortens(s[1..]);
    }
  }

  /** Trimming the end first changes nothing. */
  lemma {:induction false} TrimAfterTrimEnd(s: string)
    ensures Trim(TrimEnd(s)) == Trim(s)
  {
    if s != "" && IsSpace(s[0]) {
      TrimAfterTrimEnd(s[1..]);
      TrimEndDropFirst(s);
    } else if s != "" {
      TrimEndAfter([s[0]], s[1..]);
      assert [s[0]] + s[1..] == s;
      assert TrimEnd(TrimEnd(s)) == TrimEnd(s);
    }
  }

  lemma {:induction false} TrimEndDropFirst(s: string)
    requires s != "" && IsSpace(s[0])
    ensures TrimStart(TrimEnd(s)) == TrimStart(TrimEnd(s[1..]))
  {
    if |s| > 1 && IsSpace(s[|s| - 1]) {
      TrimEndDropFirst(s[..|s| - 1]);
      assert s[..|s| - 1][1..] == s[1..][..|s[1..]| - 1];
    }
  }

  ghost predicate AllSpace(s: string) {
    forall c <- s :: IsSpace(c)
  }

  lemma {:induction false} TrimStartStrips(a: string, s: string)
    requires AllSpace(a) && (s == "" || !IsSpace(s[0]))
    ensures TrimStart(a + s) == s
  {
    if a == "" {
      assert a + s == s;
    } else {
      assert (a + s)[1..] == a[1..] + s;
      TrimStartStrips(a[1..], s);
    }
  }

  lemma {:induction false} TrimEndStrips(s: string, b: string)
    requires AllSpace(b) && (s == "" || !IsSpace(s[|s| - 1]))
    ensures TrimEnd(s + b) == s
  {
    if b == "" {
      assert s + b == s;
    } else {
      assert (s + b)[..|s + b| - 1] == s + b[..|b| - 1];
      TrimEndStrips(s, b[..|b| - 1]);
    }
  }

  /** All the white space around a text goes, and nothing of the text. */
  lemma TrimStrips(a: string, s: string, b: string)
    requires AllSpace(a) && AllSpace(b) && IsTrimmed(s)
    ensures Trim(a + s + b) == s
  {
    assert a + s + b == a + (s + b);
    if s == "" {
      TrimStartStrips(a + b, "");
      assert a + s + b == a + b + "";
    } else {
      TrimStartStrips(a, s + b);
      TrimEndStrips(s, b);
    }
  }

  lemma TrimIdentity(s: string)
    ensures |Trim(s)| <= |s|
    ensures Trim(s) == s <==> IsTrimmed(s)
  {
    TrimStartShortens(s);
  }
}
