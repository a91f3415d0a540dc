/** Plain-text helpers shared by the printers and parsers. */
module Text {

  function Digit(d: nat): (c: char)
    requires d < 10
    ensures '0' <= c <= '9'
  {
    '0' + d as char
  }

  predicate IsDigit(c: char) {
    '0' <= c <= '9'
  }

  function DigitValue(c: char): (d: nat)
    requires IsDigit(c)
    ensures d < 10
  {
    (c as int) - ('0' as int)
  }

  /** Decimal digits of a natural number, most significant first, no leading zero. */
  function Decimal(n: nat): (s: string)
    ensures |s| > 0 && forall i :: 0 <= i < |s| ==> IsDigit(s[i])
    ensures |s| > 1 ==> s[0] != '0'
    decreases n
  {
    if n < 10 then [Digit(n)] else Decimal(n / 10) + [Digit(n % 10)]
  }

  predicate AllDigits(s: string) {
    forall i :: 0 <= i < |s| ==> IsDigit(s[i])
  }

  function NatOf(s: string): nat
    requires AllDigits(s)
  {
    if s == [] then 0 else 10 * NatOf(s[..|s| - 1]) + DigitValue(s[|s| - 1])
  }

  /** Reading back a printed number gives the number. */
  lemma {:induction false} DecimalRoundTrip(n: nat)
    ensures AllDigits(Decimal(n)) && NatOf(Decimal(n)) == n
  {
    var s := Decimal(n);
    if n < 10 {
      assert s[..0] == [];
    } else {
      DecimalRoundTrip(n / 10);
      assert s[..|s| - 1] == Decimal(n / 10);
    }
  }

  function Zeros(n: nat): (s: string)
    ensures |s| == n && forall i :: 0 <= i < n ==> s[i] == '0'
  {
    if n == 0 then "" else "0" + Zeros(n - 1)
  }

  /** A number padded with zeros on the left to at least `width` characters. */
  function ZeroPadded(n: nat, width: nat): (s: string)
    ensures |s| >= width && |s| >= |Decimal(n)| && (|Decimal(n)| <= width ==> |s| == width)
  {
    Zeros(if width > |Decimal(n)| then width - |Decimal(n)| else 0) + Decimal(n)
  }

  predicate HasPrefix(s: string, prefix: string) {
    |prefix| <= |s| && s[..|prefix|] == prefix
  }

  predicate HasSuffix(s: string, suffix: string) {
    |suffix| <= |s| && s[|s| - |suffix|..] == suffix
  }

  // ------------------------------------------------- blanks and line ends

  /** Characters `str.strip` removes. */
  predicate IsSpace(c: char) {
    var n := c as int;
    9 <= n <= 13 || 28 <= n <= 32 || n == 0x85 || n == 0xa0 || n == 0x1680 || 0x2000 <= n <= 0x200a
    || n == 0x2028 || n == 0x2029 || n == 0x202f || n == 0x205f || n == 0x3000
  }

  /** Characters `str.splitlines` ends a line at. */
  predicate IsBreak(c: char)
    ensures IsBreak(c) ==> IsSpace(c)
  {
    var n := c as int;
    10 <= n <= 13 || 28 <= n <= 30 || n == 0x85 || n == 0x2028 || n == 0x2029
  }

  predicate OneLine(s: string) {
    forall i :: 0 <= i < |s| ==> !IsBreak(s[i])
  }

  predicate Trimmed(s: string) {
    s != "" ==> !IsSpace(s[0]) && !IsSpace(s[|s| - 1])
  }

  function LStrip(s: string): (r: string)
    ensures r != "" ==> !IsSpace(r[0])
    ensures |r| <= |s|
  {
    if s != "" && IsSpace(s[0]) then LStrip(s[1..]) else s
  }

  function RStrip(s: string): (r: string)
    ensures |r| <= |s|
    ensures r == s[..|r|]
    ensures r != "" ==> !IsSpace(r[|r| - 1])
  {
    if s != "" && IsSpace(s[|s| - 1]) then RStrip(s[..|s| - 1]) else s
  }

  function Strip(s: string): (r: string)
    ensures |r| <= |s| && Trimmed(r)
  {
    RStrip(LStrip(s))
  }

  lemma StripKeepsTrimmed(s: string)
    requires Trimmed(s)
    ensures Strip(s) == s
  {
  }

  /** One blank on either side of a trimmed text is stripped away. */
  lemma StripPadded(s: string)
    requires Trimmed(s)
    ensures Strip(" " + s) == s && Strip(s + " ") == s
  {
    assert (" " + s)[1..] == s;
    assert LStrip(" " + s) == LStrip(s) == s;
    var t := s + " ";
    assert t[..|t| - 1] == s;
    if s == "" {
      assert t == " " && t[1..] == "";
      assert LStrip(t) == LStrip("") == "";
    } else {
      assert LStrip(t) == t;
      assert RStrip(t) == RStrip(s) == s;
    }
  }

  /** Where the first line ends, or the whole length. */
  function FirstBreak(s: string): (i: nat)
    ensures i <= |s| && OneLine(s[..i]) && (i < |s| ==> IsBreak(s[i]))
  {
    if s == "" || IsBreak(s[0]) then 0
    else
      var i := 1 + FirstBreak(s[1..]);
      assert forall k :: 0 < k < i ==> s[k] == s[1..][..i - 1][k - 1];
      i
  }

  /** `str.splitlines`: a carriage return and line feed together are one line end. */
  function SplitLines(s: string): (lines: seq<string>)
    ensures forall k :: 0 <= k < |lines| ==> OneLine(lines[k])
  {
    if s == "" then []
    else
      var i := FirstBreak(s);
      if i == |s| then [s]
      else
        var skip := if s[i] == '\r' && i + 1 < |s| && s[i + 1] == '\n' then 2 else 1;
        [s[..i]] + SplitLines(s[i + skip..])
  }

  /** Every line followed by a line feed. */
  function Terminated(lines: seq<string>): string {
    if lines == [] then "" else lines[0] + "\n" + Terminated(lines[1..])
  }

  lemma {:induction false} FirstBreakIs(s: string, i: nat)
    requires i < |s| && OneLine(s[..i]) && IsBreak(s[i])
    ensures FirstBreak(s) == i
  {
    if i > 0 {
      assert s[..i][0] == s[0];
      assert s[1..][..i - 1] == s[..i][1..];
      FirstBreakIs(s[1..], i - 1);
    }
  }

  lemma SplitFirst(first: string, rest: string)
    requires OneLine(first)
    ensures SplitLines(first + "\n" + rest) == [first] + SplitLines(rest)
  {
    var s := first + "\n" + rest;
    assert s[..|first|] == first && s[|first|] == '\n' && s[|first| + 1..] == rest;
    FirstBreakIs(s, |first|);
  }

  lemma {:induction false} SplitTerminated(lines: seq<string>)
    requires forall k :: 0 <= k < |lines| ==> OneLine(lines[k])
    ensures SplitLines(Terminated(lines)) == lines
  {
    if lines != [] {
      SplitFirst(lines[0], Terminated(lines[1..]));
      SplitTerminated(lines[1..]);
      assert [lines[0]] + lines[1..] == lines;
    }
  }

  /** Every line followed by a line feed, or by a carriage return and a line feed where `both` says so. */
  function TerminatedAs(lines: seq<string>, both: seq<bool>): string
    requires |both| == |lines|
  {
    if lines == [] then ""
    else lines[0] + (if both[0] then "\r\n" else "\n") + TerminatedAs(lines[1..], both[1..])
  }

  /** Either line end separates lines, and the two together are one. */
  lemma {:induction false} SplitAnyTerminated(lines: seq<string>, both: seq<bool>)
    requires |both| == |lines| && forall k :: 0 <= k < |lines| ==> OneLine(lines[k])
    ensures SplitLines(TerminatedAs(lines, both)) == lines
  {
    if lines != [] {
      var first, rest := lines[0], TerminatedAs(lines[1..], both[1..]);
      SplitAnyTerminated(lines[1..], both[1..]);
      if both[0] {
        var s := first + "\r\n" + rest;
        assert s[..|first|] == first && s[|first|] == '\r' && s[|first| + 1] == '\n' && s[|first| + 2..] == rest;
        FirstBreakIs(s, |first|);
      } else {
        SplitFirst(first, rest);
      }
      assert [lines[0]] + lines[1..] == lines;
    }
  }

  function Join(parts: seq<string>, separator: string): string {
    if parts == [] then "" else if |parts| == 1 then parts[0] else parts[0] + separator + Join(parts[1..], separator)
  }

  lemma {:induction false} JoinWithLineFeeds(lines: seq<string>)
    requires lines != []
    ensures Join(lines, "\n") + "\n" == Terminated(lines)
  {
    if |lines| == 1 {
      assert lines[1..] == [];
    } else {
      JoinWithLineFeeds(lines[1..]);
      assert Join(lines, "\n") == lines[0] + "\n" + Join(lines[1..], "\n");
    }
  }

  // --------------------------------------------------- replace and split

  /** `str.replace` from left to right, without overlaps. */
  function Replace(s: string, from: string, into: string): string
    requires from != ""
  {
    if s == "" then ""
    else if HasPrefix(s, from) then into + Replace(s[|from|..], from, into)
    else [s[0]] + Replace(s[1..], from, into)
  }

  /** `str.split` at one character. */
  function Split(s: string, at: char): (parts: seq<string>)
    ensures |parts| > 0 && forall k :: 0 <= k < |parts| ==> |parts[k]| <= |s|
  {
    if s == "" then [""]
    else
      var rest := Split(s[1..], at);
      if s[0] == at then [""] + rest else [[s[0]] + rest[0]] + rest[1..]
  }

  lemma {:induction false} SplitWithout(s: string, at: char)
    requires at !in s
    ensures Split(s, at) == [s]
  {
    if s != "" {
      SplitWithout(s[1..], at);
      assert [s[0]] + s[1..] == s;
    }
  }

  lemma {:induction false} SplitAfter(s: string, at: char, rest: string)
    requires at !in s
    ensures Split(s + [at] + rest, at) == [s] + Split(rest, at)
  {
    var t := s + [at] + rest;
    if s == "" {
      assert t == [at] + rest && t[1..] == rest;
    } else {
      SplitAfter(s[1..], at, rest);
      assert t[1..] == s[1..] + [at] + rest;
      assert [s[0]] + s[1..] == s;
    }
  }

  function Count(s: string, c: char): nat {
    if s == "" then 0 else (if s[0] == c then 1 else 0) + Count(s[1..], c)
  }

  lemma {:induction false} CountConcat(a: string, b: string, c: char)
    ensures Count(a + b, c) == Count(a, c) + Count(b, c)
  {
    if a == "" {
      assert a + b == b;
    } else {
      CountConcat(a[1..], b, c);
      assert (a + b)[1..] == a[1..] + b;
    }
  }

  lemma {:induction false} CountZero(s: string, c: char)
    ensures Count(s, c) == 0 <==> c !in s
  {
    if s != "" {
      CountZero(s[1..], c);
      assert s == [s[0]] + s[1..];
    }
  }

  lemma {:induction false} SplitCounts(s: string, at: char)
    ensures |Split(s, at)| == Count(s, at) + 1
  {
    if s != "" { SplitCounts(s[1..], at); }
  }
}
