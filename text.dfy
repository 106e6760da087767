/**
 * The handful of Python `str` operations the converter relies on: `isspace`,
 * `strip`, `upper`, `lower`, `startswith`, the substring test `in`, the line
 * splitting of a file opened in text mode, and the UTF-8 encoding used when a
 * text file is written or read.
 */
module Text {
  import opened Common

  /** Python's `str.isspace` for one character. */
  predicate IsSpace(c: char)
  {
    c == ' ' || ('\t' <= c <= '\r') || ('\U{1C}' <= c <= '\U{1F}')
    || c == '\U{85}' || c == '\U{A0}' || c == '\U{1680}'
    || ('\U{2000}' <= c <= '\U{200A}') || c == '\U{2028}' || c == '\U{2029}'
    || c == '\U{202F}' || c == '\U{205F}' || c == '\U{3000}'
  }

  /** `s` without its leading white space. */
  function TrimStart(s: string): (r: string)
  {
    if s != [] && IsSpace(s[0]) then TrimStart(s[1..]) else s
  }

  /** `s` without its trailing white space. */
  function TrimEnd(s: string): (r: string)
  {
    if s != [] && IsSpace(s[|s| - 1]) then TrimEnd(s[..|s| - 1]) else s
  }

  predicate AllSpace(s: string)
  {
    forall i :: 0 <= i < |s| ==> IsSpace(s[i])
  }

  /** Python's `str.strip()` with no argument. */
  function Strip(s: string): string
  {
    TrimStart(TrimEnd(s))
  }

  /** `TrimStart` removes a white-space prefix and stops at the first other character. */
  lemma {:induction false} TrimStartShape(s: string)
    ensures |TrimStart(s)| <= |s|
    ensures TrimStart(s) == s[|s| - |TrimStart(s)|..]
    ensures AllSpace(s[..|s| - |TrimStart(s)|])
    ensures TrimStart(s) == [] || !IsSpace(TrimStart(s)[0])
    decreases |s|
  {
    if s != [] && IsSpace(s[0]) {
      TrimStartShape(s[1..]);
      var r := TrimStart(s[1..]);
      assert s[1..][|s| - 1 - |r|..] == s[|s| - |r|..];
      assert s[..|s| - |r|] == [s[0]] + s[1..][..|s| - 1 - |r|];
    }
  }

  /** `TrimEnd` removes a white-space suffix and stops at the last other character. */
  lemma {:induction false} TrimEndShape(s: string)
    ensures |TrimEnd(s)| <= |s|
    ensures TrimEnd(s) == s[..|TrimEnd(s)|]
    ensures AllSpace(s[|TrimEnd(s)|..])
    ensures TrimEnd(s) == [] || !IsSpace(TrimEnd(s)[|TrimEnd(s)| - 1])
    decreases |s|
  {
    if s != [] && IsSpace(s[|s| - 1]) {
      var p := s[..|s| - 1];
      TrimEndShape(p);
      var r := TrimEnd(p);
      assert p[..|r|] == s[..|r|];
      assert s[|r|..] == p[|r|..] + [s[|s| - 1]];
    }
  }

  /** Trailing white space is cut no further than a first character that is not white space. */
  lemma {:induction false} TrimEndKeepsHead(s: string)
    requires s != [] && !IsSpace(s[0])
    ensures TrimEnd(s) != [] && TrimEnd(s)[0] == s[0]
    decreases |s|
  {
    if IsSpace(s[|s| - 1]) {
      TrimEndKeepsHead(s[..|s| - 1]);
    }
  }

  /**
   * `strip` keeps one contiguous piece of `s`, from `start` on: everything
   * before and after it is white space, and the piece neither starts nor
   * ends with white space.
   */
  lemma StripShape(s: string) returns (start: nat)
    ensures start + |Strip(s)| <= |s|
    ensures s[start..start + |Strip(s)|] == Strip(s)
    ensures AllSpace(s[..start]) && AllSpace(s[start + |Strip(s)|..])
    ensures Strip(s) == [] || (!IsSpace(Strip(s)[0]) && !IsSpace(Strip(s)[|Strip(s)| - 1]))
  {
    var e := TrimEnd(s);
    TrimEndShape(s);
    TrimStartShape(e);
    var t := Strip(s);
    start := |e| - |t|;
    assert s[start..start + |t|] == e[start..];
    assert s[..start] == e[..start];
    if t != [] {
      assert t[|t| - 1] == e[|e| - 1];
    }
  }

  lemma {:induction false} TrimEndSpaces(t: string, b: string)
    requires t != [] && !IsSpace(t[|t| - 1]) && AllSpace(b)
    ensures TrimEnd(t + b) == t
    decreases |b|
  {
    if b == [] {
      assert t + b == t;
    } else {
      assert (t + b)[..|t + b| - 1] == t + b[..|b| - 1];
      TrimEndSpaces(t, b[..|b| - 1]);
    }
  }

  lemma {:induction false} TrimStartSpaces(a: string, t: string)
    requires t != [] && !IsSpace(t[0]) && AllSpace(a)
    ensures TrimStart(a + t) == t
    decreases |a|
  {
    if a == [] {
      assert a + t == t;
    } else {
      assert (a + t)[1..] == a[1..] + t;
      TrimStartSpaces(a[1..], t);
    }
  }

  /** White space around a word with no white space at its ends is what `strip` removes. */
  lemma StripAround(a: string, t: string, b: string)
    requires AllSpace(a) && AllSpace(b)
    requires t != [] && !IsSpace(t[0]) && !IsSpace(t[|t| - 1])
    ensures Strip(a + t + b) == t
  {
    var at := a + t;
    assert at != [] && !IsSpace(at[|at| - 1]);
    TrimEndSpaces(at, b);
    TrimStartSpaces(a, t);
  }

  /** Python's `str.upper` on ASCII letters; other characters are kept. */
  function UpperChar(c: char): char
  {
    if 'a' <= c <= 'z' then (c as int - 32) as char else c
  }

  /** Python's `str.lower` on ASCII letters; other characters are kept. */
  function LowerChar(c: char): char
  {
    if 'A' <= c <= 'Z' then (c as int + 32) as char else c
  }

  /** No lower-case ASCII letter occurs in `s`. */
  predicate NoLower(s: string)
  {
    forall i :: 0 <= i < |s| ==> !('a' <= s[i] <= 'z')
  }

  function Upper(s: string): (r: string)
    ensures |r| == |s| && NoLower(r)
    ensures forall i :: 0 <= i < |s| ==> r[i] == s[i] || ('a' <= s[i] <= 'z' && 'A' <= r[i] <= 'Z')
  {
    seq(|s|, i requires 0 <= i < |s| => UpperChar(s[i]))
  }

  lemma UpperAppend(a: string, b: string)
    ensures Upper(a + b) == Upper(a) + Upper(b)
  {
    assert Upper(a + b) == Upper(a) + Upper(b) by {
      forall i | 0 <= i < |a + b|
        ensures Upper(a + b)[i] == (Upper(a) + Upper(b))[i]
      {
        if i < |a| {
          assert (a + b)[i] == a[i];
        } else {
          assert (a + b)[i] == b[i - |a|];
        }
      }
    }
  }

  /** Text without lower-case letters is its own upper case. */
  lemma UpperFixed(s: string)
    requires NoLower(s)
    ensures Upper(s) == s
  {
  }

  function Lower(s: string): (r: string)
    ensures |r| == |s|
  {
    if s == [] then [] else [LowerChar(s[0])] + Lower(s[1..])
  }

  lemma {:induction false} LowerAt(s: string, i: nat)
    requires i < |s|
    ensures Lower(s)[i] == LowerChar(s[i])
    decreases i
  {
    if i > 0 {
      LowerAt(s[1..], i - 1);
    }
  }

  /**
   * `t` spells `w` in any mix of cases: each character is `w`'s own, or the
   * capital of a lower-case ASCII letter of `w`.
   */
  predicate SpellsAnyCase(t: string, w: string)
  {
    |t| == |w|
    && forall i :: 0 <= i < |t| ==> t[i] == w[i] || ('a' <= w[i] <= 'z' && t[i] as int == w[i] as int - 32)
  }

  /** Lower-casing yields a word without capitals exactly when the text spells it in any case. */
  lemma LowerIsAnyCase(t: string, w: string)
    requires forall i :: 0 <= i < |w| ==> !('A' <= w[i] <= 'Z')
    ensures Lower(t) == w <==> SpellsAnyCase(t, w)
  {
    if Lower(t) == w {
      forall i | 0 <= i < |t|
        ensures t[i] == w[i] || ('a' <= w[i] <= 'z' && t[i] as int == w[i] as int - 32)
      {
        LowerAt(t, i);
      }
    }
    if SpellsAnyCase(t, w) {
      forall i | 0 <= i < |t|
        ensures Lower(t)[i] == w[i]
      {
        LowerAt(t, i);
      }
    }
  }

  /** Python's `s.startswith(p)`. */
  predicate StartsWith(s: string, p: string)
  {
    |p| <= |s| && s[..|p|] == p
  }

  /** A mismatch at a known position rules a prefix out. */
  lemma NotStartsWith(s: string, p: string, i: nat)
    requires i < |p| && i < |s| && s[i] != p[i]
    ensures !StartsWith(s, p)
  {
    if |p| <= |s| {
      assert s[..|p|][i] == s[i];
    }
  }

  /** Python's `p in s` for strings: `p` occurs somewhere in `s`. */
  predicate Contains(s: string, p: string)
    decreases |s|
  {
    StartsWith(s, p) || (|s| > 0 && Contains(s[1..], p))
  }

  /** A pattern holding a character that the text lacks does not occur in it. */
  lemma {:induction false} NotContainedFor(s: string, p: string, c: char)
    requires c in p && c !in s
    ensures !Contains(s, p)
  {
    if |s| > 0 {
      assert c !in s[1..];
      NotContainedFor(s[1..], p, c);
    }
  }

  /** An occurrence at a known position is an occurrence. */
  lemma {:induction false} ContainedAt(s: string, p: string, i: nat)
    requires i + |p| <= |s| && s[i..i + |p|] == p
    ensures Contains(s, p)
  {
    if i > 0 {
      assert s[1..][i - 1..i - 1 + |p|] == s[i..i + |p|];
      ContainedAt(s[1..], p, i - 1);
    }
  }

  /** Universal newlines: "\n", "\r" and "\r\n" each end a line. */
  predicate IsLineBreak(c: char)
  {
    c == '\n' || c == '\r'
  }

  /** The position just past the end of the line that starts at `i`, its terminator included. */
  function LineEnd(t: string, i: nat): (k: nat)
    requires i <= |t|
    ensures i <= k <= |t|
    ensures i < |t| ==> i < k
    decreases |t| - i
  {
    if i == |t| then i
    else if t[i] == '\n' then i + 1
    else if t[i] == '\r' then (if i + 1 < |t| && t[i + 1] == '\n' then i + 2 else i + 1)
    else LineEnd(t, i + 1)
  }

  /** A line without breaks followed by "\n" ends just after that "\n". */
  lemma {:induction false} LineEndAtNewline(t: string, i: nat, j: nat)
    requires i <= j < |t| && t[j] == '\n'
    requires forall m :: i <= m < j ==> !IsLineBreak(t[m])
    ensures LineEnd(t, i) == j + 1
    decreases j - i
  {
    if i < j {
      LineEndAtNewline(t, i + 1, j);
    }
  }

  /**
   * The lines `for line in f` yields on a file opened in text mode, each with
   * its terminator (Python turns the terminator into "\n"; every caller strips
   * it, so it is kept as found).
   */
  function Lines(t: string): seq<string>
    decreases |t|
  {
    if t == [] then []
    else
      var k := LineEnd(t, 0);
      [t[..k]] + Lines(t[k..])
  }

  /** The byte holding the value `x`. */
  function ByteOf(x: int): (b: Byte)
    requires 0 <= x < 0x100
    ensures b as int == x
  {
    x as Byte
  }

  /** A UTF-8 continuation byte carrying the six bits of `x` selected by `scale`. */
  function Continuation(x: int, scale: nat): (b: Byte)
    requires 0 <= x && 0 < scale
    ensures 0x80 <= b as int
  {
    ByteOf(0x80 + (x / scale) % 64)
  }

  /** A line ended by "\n" and holding no other break is the first of the lines. */
  lemma LinesCons(line: string, rest: string)
    requires line != [] && line[|line| - 1] == '\n'
    requires forall m :: 0 <= m < |line| - 1 ==> !IsLineBreak(line[m])
    ensures Lines(line + rest) == [line] + Lines(rest)
  {
    var t := line + rest;
    LineEndAtNewline(t, 0, |line| - 1);
    assert t[..|line|] == line;
    assert t[|line|..] == rest;
  }

  /** The UTF-8 encoding of one character. */
  function EncodeChar(c: char): (b: seq<Byte>)
    ensures 1 <= |b| <= 4
    ensures |b| == 1 <==> c as int < 0x80
    ensures |b| == 1 ==> b[0] as int == c as int
    ensures forall i :: 0 <= i < |b| && 1 < |b| ==> 0x80 <= b[i] as int
  {
    var n := c as int;
    if n < 0x80 then [ByteOf(n)]
    else if n < 0x800 then [ByteOf(0xC0 + n / 64), Continuation(n, 1)]
    else if n < 0x10000 then [ByteOf(0xE0 + n / 4096), Continuation(n, 64), Continuation(n, 1)]
    else [ByteOf(0xF0 + n / 262144), Continuation(n, 4096), Continuation(n, 64), Continuation(n, 1)]
  }

  /** `str.encode("utf-8")`. */
  function Encode(s: string): seq<Byte>
  {
    if s == [] then [] else EncodeChar(s[0]) + Encode(s[1..])
  }

  /**
   * The length of the UTF-8 sequence a byte starts: 1 to 4, or 0 for a byte
   * that starts none (a continuation byte, 0xC0, 0xC1 or 0xF5 and above).
   */
  function SequenceLength(lead: Byte): (n: nat)
    ensures n <= 4
  {
    if lead < 0x80 then 1
    else if 0xC2 <= lead <= 0xDF then 2
    else if 0xE0 <= lead <= 0xEF then 3
    else if 0xF0 <= lead <= 0xF4 then 4
    else 0
  }

  predicate Continues(b: Byte)
  {
    0x80 <= b <= 0xBF
  }

  /**
   * The range of the second byte after `lead`, narrower after 0xE0, 0xED,
   * 0xF0 and 0xF4: no overlong form, no surrogate, nothing past U+10FFFF.
   */
  function SecondLow(lead: Byte): Byte
  {
    if lead == 0xE0 then 0xA0 else if lead == 0xF0 then 0x90 else 0x80
  }

  function SecondHigh(lead: Byte): Byte
  {
    if lead == 0xED then 0x9F else if lead == 0xF4 then 0x8F else 0xBF
  }

  /** A complete, well-formed UTF-8 sequence starts `b`. */
  predicate WellFormed(b: seq<Byte>)
  {
    b != [] && 0 < SequenceLength(b[0]) <= |b|
    && (SequenceLength(b[0]) >= 2 ==> SecondLow(b[0]) <= b[1] <= SecondHigh(b[0]))
    && (SequenceLength(b[0]) >= 3 ==> Continues(b[2]))
    && (SequenceLength(b[0]) == 4 ==> Continues(b[3]))
  }

  /** The character a well-formed sequence at the start of `b` stands for. */
  function Scalar(b: seq<Byte>): (c: char)
    requires WellFormed(b)
    ensures c as int < 0x80 <==> SequenceLength(b[0]) == 1
  {
    var n := SequenceLength(b[0]);
    var v :=
      if n == 1 then b[0] as int
      else if n == 2 then (b[0] as int - 0xC0) * 64 + (b[1] as int - 0x80)
      else if n == 3 then (b[0] as int - 0xE0) * 4096 + (b[1] as int - 0x80) * 64 + (b[2] as int - 0x80)
      else (b[0] as int - 0xF0) * 262144 + (b[1] as int - 0x80) * 4096 + (b[2] as int - 0x80) * 64 + (b[3] as int - 0x80);
    v as char
  }

  /**
   * Reading bytes as UTF-8 text with `errors="ignore"`: each well-formed
   * sequence becomes its character, and a byte that does not start one is
   * dropped, so decoding resumes at the next byte.
   */
  function Decode(b: seq<Byte>): string
    decreases |b|
  {
    if b == [] then []
    else if WellFormed(b) then [Scalar(b)] + Decode(b[SequenceLength(b[0])..])
    else Decode(b[1..])
  }

  predicate IsAscii(s: string)
  {
    forall i :: 0 <= i < |s| ==> s[i] as int < 0x80
  }

  lemma AsciiAppend(a: string, b: string)
    requires IsAscii(a) && IsAscii(b)
    ensures IsAscii(a + b)
  {
    forall i | 0 <= i < |a + b|
      ensures (a + b)[i] as int < 0x80
    {
      if i < |a| {
        assert (a + b)[i] == a[i];
      } else {
        assert (a + b)[i] == b[i - |a|];
      }
    }
  }

  /** The encoding of a character is a single well-formed sequence standing for it. */
  lemma EncodeCharWellFormed(c: char)
    ensures WellFormed(EncodeChar(c)) && SequenceLength(EncodeChar(c)[0]) == |EncodeChar(c)|
    ensures Scalar(EncodeChar(c)) == c
  {
    var n := c as int;
    if n < 0x80 {
    } else if n < 0x800 {
      TwoBytes(c);
    } else if n < 0x10000 {
      ThreeBytes(c);
    } else {
      FourBytes(c);
    }
  }

  lemma TwoBytes(c: char)
    requires 0x80 <= c as int < 0x800
    ensures WellFormed(EncodeChar(c)) && SequenceLength(EncodeChar(c)[0]) == 2
    ensures Scalar(EncodeChar(c)) == c
  {
    var n := c as int;
    var b := EncodeChar(c);
    assert n / 1 == n;
    assert b[0] as int == 0xC0 + n / 64 && b[1] as int == 0x80 + n % 64;
    assert (b[0] as int - 0xC0) * 64 + (b[1] as int - 0x80) == n;
  }

  lemma ThreeBytes(c: char)
    requires 0x800 <= c as int < 0x10000
    ensures WellFormed(EncodeChar(c)) && SequenceLength(EncodeChar(c)[0]) == 3
    ensures Scalar(EncodeChar(c)) == c
  {
    var n := c as int;
    var b := EncodeChar(c);
    var d, q := n % 64, n / 64;
    var e, a := q % 64, q / 64;
    assert n == 4096 * a + 64 * e + d;
    assert n / 4096 == a;
    assert n / 1 == n;
    assert b[0] as int == 0xE0 + a && b[1] as int == 0x80 + e && b[2] as int == 0x80 + d;
  }

  lemma FourBytes(c: char)
    requires 0x10000 <= c as int
    ensures WellFormed(EncodeChar(c)) && SequenceLength(EncodeChar(c)[0]) == 4
    ensures Scalar(EncodeChar(c)) == c
  {
    var n := c as int;
    var b := EncodeChar(c);
    var d, q := n % 64, n / 64;
    var e, q2 := q % 64, q / 64;
    var f, a := q2 % 64, q2 / 64;
    assert n == 4096 * q2 + 64 * e + d;
    assert n / 4096 == q2;
    assert n == 262144 * a + 4096 * f + 64 * e + d;
    assert n / 262144 == a;
    assert n / 1 == n;
    assert b[0] as int == 0xF0 + a && b[1] as int == 0x80 + f && b[2] as int == 0x80 + e && b[3] as int == 0x80 + d;
  }

  /** A well-formed sequence is decoded the same whatever follows it. */
  lemma WellFormedPrefix(p: seq<Byte>, rest: seq<Byte>)
    requires WellFormed(p) && SequenceLength(p[0]) == |p|
    ensures WellFormed(p + rest) && SequenceLength((p + rest)[0]) == |p|
    ensures Scalar(p + rest) == Scalar(p)
  {
    var b := p + rest;
    assert b[0] == p[0];
    assert forall i :: 0 <= i < |p| ==> b[i] == p[i];
  }

  /** The byte-order mark U+FEFF as UTF-8 writes it. */
  const BYTE_ORDER_MARK: seq<Byte> := [0xEF, 0xBB, 0xBF]

  /** A leading byte-order mark is well-formed, so it is decoded to U+FEFF and not dropped. */
  lemma DecodeMark(b: seq<Byte>)
    ensures Decode(BYTE_ORDER_MARK + b) == ['\U{FEFF}'] + Decode(b)
  {
    var m := BYTE_ORDER_MARK + b;
    assert m[0] == 0xEF && m[1] == 0xBB && m[2] == 0xBF;
    assert m[3..] == b;
  }

  /** One encoded character, then anything: the character is decoded first. */
  lemma DecodeEncodeChar(c: char, rest: seq<Byte>)
    ensures Decode(EncodeChar(c) + rest) == [c] + Decode(rest)
  {
    var e := EncodeChar(c);
    EncodeCharWellFormed(c);
    WellFormedPrefix(e, rest);
    assert (e + rest)[|e|..] == rest;
  }

  /** Text written as UTF-8 reads back unchanged. */
  lemma {:induction false} DecodeEncode(s: string)
    ensures Decode(Encode(s)) == s
  {
    if s != [] {
      DecodeEncodeChar(s[0], Encode(s[1..]));
      DecodeEncode(s[1..]);
      assert s == [s[0]] + s[1..];
    }
  }
}
