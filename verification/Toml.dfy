/** `project.py`: the printer and the minimal parser for the TOML subset of the project file. */
module Toml {
  import opened Common
  import opened Text

  datatype Value = Bool(b: bool) | Int(i: int) | Str(s: string) | List(items: seq<Value>)

  type Values = map<string, Value>
  type Document = map<string, Values>

  /** A dictionary in insertion order: what the printer is given. */
  type Section = seq<(string, Value)>

  // -------------------------------------------------------------- values

  function IntText(i: int): string {
    if i < 0 then "-" + Decimal(-i) else Decimal(i)
  }

  function Escape(s: string): string {
    Replace(Replace(s, "\\", "\\\\"), "\"", "\\\"")
  }

  /** Two global replacements, one after the other. */
  function Unescape(s: string): string {
    Replace(Replace(s, "\\\"", "\""), "\\\\", "\\")
  }

  /** `_toml_value`. */
  function Print(v: Value): (s: string)
    ensures s != ""
  {
    match v
    case Bool(b) => if b then "true" else "false"
    case Int(i) => IntText(i)
    case Str(s) => "\"" + Escape(s) + "\""
    case List(items) => "[" + Join(PrintAll(items), ", ") + "]"
  }

  function PrintAll(items: seq<Value>): (texts: seq<string>)
    ensures |texts| == |items|
  {
    if items == [] then [] else [Print(items[0])] + PrintAll(items[1..])
  }

  /** Digits with single underscores between them, as `int` reads them. */
  predicate IsNumeral(s: string) {
    s != "" && IsDigit(s[|s| - 1]) &&
    (|s| == 1 || IsNumeral(s[..|s| - 1]) || (s[|s| - 2] == '_' && IsNumeral(s[..|s| - 2])))
  }

  function NumeralValue(s: string): nat
    requires IsNumeral(s)
  {
    DigitValue(s[|s| - 1]) +
    if |s| == 1 then 0
    else if IsNumeral(s[..|s| - 1]) then 10 * NumeralValue(s[..|s| - 1])
    else 10 * NumeralValue(s[..|s| - 2])
  }

  function IntOf(s: string): Option<int> {
    if IsNumeral(s) then Some(NumeralValue(s))
    else if s != "" && s[0] == '-' && IsNumeral(s[1..]) then Some(-(NumeralValue(s[1..]) as int))
    else if s != "" && s[0] == '+' && IsNumeral(s[1..]) then Some(NumeralValue(s[1..]))
    else None
  }

  predicate Bracketed(token: string) {
    HasPrefix(token, "[") && HasSuffix(token, "]")
  }

  /** `token[1:-1]`, which is empty for a token of one character. */
  function Inside(token: string): (s: string)
    requires token != ""
    ensures |s| < |token|
  {
    if |token| == 1 then "" else token[1..|token| - 1]
  }

  /** `_parse_toml_scalar`. */
  function Parse(token: string): Value
    decreases |token|, 1
  {
    if Bracketed(token) then
      var inner := Strip(Inside(token));
      if inner == "" then List([]) else List(ParseAll(Split(inner, ','), |token|))
    else if token == "true" || token == "false" then Bool(token == "true")
    else if HasPrefix(token, "\"") && HasSuffix(token, "\"") then Str(Unescape(Inside(token)))
    else if IntOf(token).Some? then Int(IntOf(token).value)
    else Str(token)
  }

  function ParseAll(parts: seq<string>, bound: nat): (values: seq<Value>)
    requires forall k :: 0 <= k < |parts| ==> |parts[k]| < bound
    ensures |values| == |parts|
    decreases bound, 0, |parts|
  {
    if parts == [] then [] else [Parse(Strip(parts[0]))] + ParseAll(parts[1..], bound)
  }

  // --------------------------------------------------------------- lines

  function EntryLine(entry: (string, Value)): string {
    entry.0 + " = " + Print(entry.1)
  }

  function EntryLines(values: Section): seq<string> {
    if values == [] then [] else EntryLines(values[..|values| - 1]) + [EntryLine(values[|values| - 1])]
  }

  function SectionLines(section: (string, Section)): seq<string> {
    ["[" + section.0 + "]"] + EntryLines(section.1)
  }

  /** Every section's lines, each section but the last followed by an empty line. */
  function AllLines(sections: seq<(string, Section)>): seq<string> {
    if sections == [] then []
    else if |sections| == 1 then SectionLines(sections[0])
    else AllLines(sections[..|sections| - 1]) + [""] + SectionLines(sections[|sections| - 1])
  }

  /** The parser's state: the tables so far and the name of the one being filled, if any. */
  datatype Reading = Reading(tables: Document, current: Option<string>)

  function FirstIndex(s: string, c: char): (i: nat)
    ensures i <= |s| && c !in s[..i] && (i < |s| ==> s[i] == c)
  {
    if s == "" || s[0] == c then 0
    else
      var i := 1 + FirstIndex(s[1..], c);
      assert s[..i] == [s[0]] + s[1..][..i - 1];
      i
  }

  /** One line of `_load_toml_minimal`. Keys before the first header go to a table nobody sees. */
  function ReadLine(r: Reading, raw: string): Reading {
    var line := Strip(raw);
    if line == "" || line[0] == '#' then r
    else if Bracketed(line) then
      var name := Strip(Inside(line));
      Reading(r.tables[name := map[]], Some(name))
    else
      var i := FirstIndex(line, '=');
      if i == |line| then r
      else Put(r, Strip(line[..i]), Parse(Strip(line[i + 1..])))
  }

  function Put(r: Reading, key: string, value: Value): Reading {
    if r.current.Some? && r.current.value in r.tables
    then r.(tables := r.tables[r.current.value := r.tables[r.current.value][key := value]])
    else r
  }

  const READ: (Reading, string) -> Reading := (r: Reading, raw: string) => ReadLine(r, raw)

  function ReadLines(r: Reading, lines: seq<string>): Reading {
    Fold(READ, r, lines)
  }

  const BLANK := Reading(map[], None)

  // --------------------------------------------- the printer and the parser

  function DumpText(sections: seq<(string, Section)>): string {
    if sections == [] then "\n" else RStrip(Join(AllLines(sections) + [""], "\n")) + "\n"
  }

  method DumpSection(section: (string, Section)) returns (lines: seq<string>)
    ensures lines == SectionLines(section)
  {
    var entries: seq<string> := [];
    var j := 0;
    while j < |section.1|
      invariant 0 <= j <= |section.1| && entries == EntryLines(section.1[..j])
    {
      entries := entries + [EntryLine(section.1[j])];
      assert section.1[..j + 1][..j] == section.1[..j];
      j := j + 1;
    }
    assert section.1[..j] == section.1;
    lines := ["[" + section.0 + "]"] + entries;
  }

  /** The lines of the first i sections, each section followed by an empty line. */
  function LinesSoFar(sections: seq<(string, Section)>): seq<string> {
    if sections == [] then [] else AllLines(sections) + [""]
  }

  lemma LinesGrow(sections: seq<(string, Section)>, i: nat)
    requires i < |sections|
    ensures LinesSoFar(sections[..i + 1]) == LinesSoFar(sections[..i]) + SectionLines(sections[i]) + [""]
  {
    assert sections[..i + 1][..i] == sections[..i];
  }

  /** `_dump_toml`: the trailing blank of the last section is stripped again. */
  method Dump(sections: seq<(string, Section)>) returns (text: string)
    ensures text == DumpText(sections)
  {
    var lines: seq<string> := [];
    var i := 0;
    while i < |sections|
      invariant 0 <= i <= |sections| && lines == LinesSoFar(sections[..i])
    {
      var section := DumpSection(sections[i]);
      LinesGrow(sections, i);
      lines := lines + section + [""];
      i := i + 1;
    }
    assert sections[..i] == sections;
    text := RStrip(Join(lines, "\n")) + "\n";
    if sections == [] {
      assert Join(lines, "\n") == "";
    }
  }

  /** `_load_toml_minimal`. */
  method Load(text: string) returns (tables: Document)
    ensures tables == ReadLines(BLANK, SplitLines(text)).tables
  {
    var lines := SplitLines(text);
    tables := map[];
    var current: Option<string> := None;
    var i := 0;
    while i < |lines|
      invariant 0 <= i <= |lines| && Reading(tables, current) == ReadLines(BLANK, lines[..i])
    {
      FoldLast(READ, BLANK, lines[..i], lines[i]);
      assert lines[..i + 1] == lines[..i] + [lines[i]];
      var line := Strip(lines[i]);
      i := i + 1;
      if line == "" || line[0] == '#' {
        continue;
      }
      if Bracketed(line) {
        var name := Strip(Inside(line));
        current := Some(name);
        tables := tables[name := map[]];
        continue;
      }
      var at := FirstIndex(line, '=');
      if at == |line| {
        continue;
      }
      if current.Some? && current.value in tables {
        tables := tables[current.value := tables[current.value][Strip(line[..at]) := Parse(Strip(line[at + 1..]))]];
      }
    }
    assert lines[..i] == lines;
  }

  // ------------------------------------------------------- scalars survive

  lemma {:induction false} QuotesRoundTrip(t: string)
    ensures Replace(Replace(t, "\"", "\\\""), "\\\"", "\"") == t
    ensures var q := Replace(t, "\"", "\\\""); q != "" ==> q[0] != '"'
  {
    if t != "" {
      var rest := Replace(t[1..], "\"", "\\\"");
      QuotesRoundTrip(t[1..]);
      var q := Replace(t, "\"", "\\\"");
      if t[0] == '"' {
        assert t[..1] == "\"" && q == "\\\"" + rest && q[2..] == rest && q[..2] == "\\\"";
      } else {
        assert t[..1] != "\"" && q == [t[0]] + rest && q[1..] == rest;
        assert !HasPrefix(q, "\\\"") by {
          if |q| >= 2 { assert q[..2][1] == rest[0]; }
        }
      }
      assert [t[0]] + t[1..] == t;
    }
  }

  lemma {:induction false} BackslashesRoundTrip(s: string)
    ensures Replace(Replace(s, "\\", "\\\\"), "\\\\", "\\") == s
  {
    if s != "" {
      var rest := Replace(s[1..], "\\", "\\\\");
      var d := Replace(s, "\\", "\\\\");
      BackslashesRoundTrip(s[1..]);
      if s[0] == '\\' {
        assert s[..1] == "\\" && d == "\\\\" + rest && d[2..] == rest && d[..2] == "\\\\";
      } else {
        assert s[..1] != "\\" && d == [s[0]] + rest && d[1..] == rest;
        assert !HasPrefix(d, "\\\\") by {
          if |d| >= 2 { assert d[..2][0] == s[0]; }
        }
      }
      assert [s[0]] + s[1..] == s;
    }
  }

  /** The two global replacements of the parser undo the two of the printer, on every string. */
  lemma EscapeRoundTrip(s: string)
    ensures Unescape(Escape(s)) == s
  {
    QuotesRoundTrip(Replace(s, "\\", "\\\\"));
    BackslashesRoundTrip(s);
  }

  lemma {:induction false} DecimalIsNumeral(n: nat)
    ensures IsNumeral(Decimal(n)) && NumeralValue(Decimal(n)) == n
  {
    if n >= 10 {
      DecimalIsNumeral(n / 10);
      assert Decimal(n)[..|Decimal(n)| - 1] == Decimal(n / 10);
    }
  }

  lemma IntRoundTrip(i: int)
    ensures IntOf(IntText(i)) == Some(i)
  {
    if i < 0 {
      var s := IntText(i);
      DecimalIsNumeral(-i);
      assert s[0] == '-' && s[1..] == Decimal(-i);
      NegativeReads(s);
    } else {
      DecimalIsNumeral(i);
    }
  }

  /** A plus sign is read over. */
  lemma PlusIsRead(n: nat)
    ensures IntOf("+" + Decimal(n)) == Some(n)
  {
    var s := "+" + Decimal(n);
    DecimalIsNumeral(n);
    assert s[0] == '+' && s[1..] == Decimal(n);
    SignIsNotNumeral(s);
  }

  lemma NegativeReads(s: string)
    requires s != "" && s[0] == '-' && IsNumeral(s[1..])
    ensures IntOf(s) == Some(-(NumeralValue(s[1..]) as int))
  {
    SignIsNotNumeral(s);
  }

  lemma {:induction false} SignIsNotNumeral(s: string)
    requires s != "" && !IsDigit(s[0])
    ensures !IsNumeral(s)
  {
    if |s| > 1 {
      SignIsNotNumeral(s[..|s| - 1]);
      if |s| > 2 { SignIsNotNumeral(s[..|s| - 2]); }
    }
  }

  predicate IsScalar(v: Value) {
    !v.List?
  }

  lemma IntReadsBack(i: int)
    ensures Parse(IntText(i)) == Int(i)
  {
    IntRoundTrip(i);
    IntTextShape(i);
    var token := IntText(i);
    assert token[0] != '[' && token[0] != '"' && token[0] != 't' && token[0] != 'f';
  }

  lemma StrReadsBack(s: string)
    ensures Parse("\"" + Escape(s) + "\"") == Str(s)
  {
    EscapeRoundTrip(s);
    var token := "\"" + Escape(s) + "\"";
    assert Inside(token) == Escape(s);
    assert token[0] == '"' && token[|token| - 1] == '"';
  }

  /** Every printed scalar is read back as itself, whatever characters its string holds. */
  lemma ScalarRoundTrip(v: Value)
    requires IsScalar(v)
    ensures Parse(Print(v)) == v
  {
    match v
    case Bool(_) =>
    case Int(i) => IntReadsBack(i);
    case Str(s) => StrReadsBack(s);
  }

  /** Printed numbers look like nothing else. */
  lemma IntTextShape(i: int)
    ensures var s := IntText(i);
            && s != "" && (s[0] == '-' || IsDigit(s[0])) && IsDigit(s[|s| - 1])
            && (forall k :: 0 < k < |s| ==> IsDigit(s[k]))
  {
  }

  // --------------------------------------------------------- lists survive

  /** Printed values begin and end with something visible. */
  lemma PrintIsTrimmed(v: Value)
    ensures Trimmed(Print(v)) && (Print(v)[|Print(v)| - 1] == ']' <==> v.List?) && (Print(v)[0] == '[' <==> v.List?)
  {
    match v
    case Bool(_) =>
    case Int(i) => IntTextShape(i);
    case Str(s) =>
      var token := Print(v);
      assert token[0] == '"' && token[|token| - 1] == '"';
    case List(items) =>
      var token := Print(v);
      assert token[0] == '[' && token[|token| - 1] == ']';
  }

  /** A scalar whose printed form holds no comma. */
  predicate CommaFree(v: Value) {
    v.Str? ==> ',' !in v.s
  }

  lemma {:induction false} ReplaceAvoids(s: string, from: string, into: string, c: char)
    requires from != "" && c !in into && c !in from
    ensures c in Replace(s, from, into) <==> c in s
  {
    if s != "" {
      if HasPrefix(s, from) {
        ReplaceAvoids(s[|from|..], from, into, c);
        assert s == from + s[|from|..];
      } else {
        ReplaceAvoids(s[1..], from, into, c);
        assert s == [s[0]] + s[1..];
      }
    }
  }

  lemma PrintComma(v: Value)
    requires IsScalar(v)
    ensures ',' in Print(v) <==> !CommaFree(v)
  {
    match v
    case Bool(_) =>
    case Int(i) => IntTextShape(i);
    case Str(s) =>
      ReplaceAvoids(s, "\\", "\\\\", ',');
      ReplaceAvoids(Replace(s, "\\", "\\\\"), "\"", "\\\"", ',');
  }

  lemma {:induction false} JoinedShape(items: seq<Value>)
    requires items != []
    ensures var s := Join(PrintAll(items), ", ");
            var last := Print(items[|items| - 1]);
            s != "" && s[0] == Print(items[0])[0] && s[|s| - 1] == last[|last| - 1]
  {
    if |items| > 1 {
      JoinedShape(items[1..]);
      assert Join(PrintAll(items), ", ") == Print(items[0]) + ", " + Join(PrintAll(items[1..]), ", ");
    }
  }

  lemma JoinedIsTrimmed(items: seq<Value>)
    requires items != []
    ensures Trimmed(Join(PrintAll(items), ", "))
  {
    JoinedShape(items);
    PrintIsTrimmed(items[0]);
    PrintIsTrimmed(items[|items| - 1]);
  }

  lemma ParseAllStep(part: string, rest: seq<string>, bound: nat)
    requires |part| < bound && forall k :: 0 <= k < |rest| ==> |rest[k]| < bound
    ensures ParseAll([part] + rest, bound) == [Parse(Strip(part))] + ParseAll(rest, bound)
  {
    assert ([part] + rest)[1..] == rest;
  }

  lemma OnePartReadsBack(v: Value, lead: string, bound: nat)
    requires IsScalar(v) && CommaFree(v) && (lead == "" || lead == " ") && |lead + Print(v)| < bound
    ensures ParseAll(Split(lead + Print(v), ','), bound) == [v]
  {
    FirstPartReadsBack(v, lead);
    SplitWithout(lead + Print(v), ',');
    ParseAllStep(lead + Print(v), [], bound);
    assert [lead + Print(v)] + [] == [lead + Print(v)];
  }

  lemma MorePartsReadBack(v: Value, lead: string, rest: string, values: seq<Value>, bound: nat)
    requires IsScalar(v) && CommaFree(v) && (lead == "" || lead == " ")
    requires |lead + Print(v)| < bound && |rest| < bound && ParseAll(Split(rest, ','), bound) == values
    ensures var parts := Split((lead + Print(v)) + [','] + rest, ',');
            && (forall k :: 0 <= k < |parts| ==> |parts[k]| < bound)
            && ParseAll(parts, bound) == [v] + values
  {
    FirstPartReadsBack(v, lead);
    SplitAfter(lead + Print(v), ',', rest);
    ParseAllStep(lead + Print(v), Split(rest, ','), bound);
  }

  /** Splitting a printed list at its commas and reading the parts gives the items; `lead` is the blank after a comma. */
  lemma {:induction false} PartsReadBack(items: seq<Value>, lead: string, bound: nat)
    requires items != [] && (lead == "" || lead == " ")
    requires forall k :: 0 <= k < |items| ==> IsScalar(items[k]) && CommaFree(items[k])
    requires |lead + Join(PrintAll(items), ", ")| < bound
    ensures ParseAll(Split(lead + Join(PrintAll(items), ", "), ','), bound) == items
  {
    if |items| == 1 {
      OnePartReadsBack(items[0], lead, bound);
      assert items == [items[0]];
    } else {
      var rest := " " + Join(PrintAll(items[1..]), ", ");
      JoinedStep(items, lead);
      PartsReadBack(items[1..], " ", bound);
      MorePartsReadBack(items[0], lead, rest, items[1..], bound);
      assert items == [items[0]] + items[1..];
    }
  }

  lemma Regroup(lead: string, first: string, rest: string)
    ensures lead + (first + ", " + rest) == (lead + first) + [','] + (" " + rest)
  {
  }

  lemma JoinedStep(items: seq<Value>, lead: string)
    requires |items| > 1
    ensures lead + Join(PrintAll(items), ", ")
            == (lead + Print(items[0])) + [','] + (" " + Join(PrintAll(items[1..]), ", "))
  {
    var texts := PrintAll(items);
    assert texts[0] == Print(items[0]) && texts[1..] == PrintAll(items[1..]);
    Regroup(lead, texts[0], Join(texts[1..], ", "));
  }

  lemma FirstPartReadsBack(v: Value, lead: string)
    requires IsScalar(v) && CommaFree(v) && (lead == "" || lead == " ")
    ensures ',' !in lead + Print(v) && Parse(Strip(lead + Print(v))) == v
  {
    PrintComma(v);
    PrintIsTrimmed(v);
    ScalarRoundTrip(v);
    if lead == "" {
      assert lead + Print(v) == Print(v);
      StripKeepsTrimmed(Print(v));
    } else {
      StripPadded(Print(v));
    }
  }

  lemma {:induction false} CommasInList(items: seq<Value>)
    requires items != [] && forall k :: 0 <= k < |items| ==> IsScalar(items[k])
    ensures Count(Join(PrintAll(items), ", "), ',') >= |items| - 1
    ensures Count(Join(PrintAll(items), ", "), ',') == |items| - 1 ==> forall k :: 0 <= k < |items| ==> CommaFree(items[k])
  {
    PrintComma(items[0]);
    CountZero(Print(items[0]), ',');
    if |items| > 1 {
      var rest := Join(PrintAll(items[1..]), ", ");
      CommasInList(items[1..]);
      CountConcat(Print(items[0]) + ", ", rest, ',');
      CountConcat(Print(items[0]), ", ", ',');
      assert Count(", ", ',') == 1 + Count(" ", ',') == 1 by { assert ", "[1..] == " " && " "[1..] == ""; }
      assert forall k :: 0 < k < |items| ==> items[k] == items[1..][k - 1];
    }
  }

  lemma ListParses(items: seq<Value>)
    requires items != []
    ensures var s := Join(PrintAll(items), ", ");
            Parse(Print(List(items))) == List(ParseAll(Split(s, ','), |s| + 2))
  {
    var s := Join(PrintAll(items), ", ");
    var token := Print(List(items));
    JoinedIsTrimmed(items);
    JoinedShape(items);
    StripKeepsTrimmed(s);
    BracketsComeOff(s);
    assert token == "[" + s + "]";
  }

  lemma BracketsComeOff(s: string)
    ensures Bracketed("[" + s + "]") && Inside("[" + s + "]") == s
  {
    var token := "[" + s + "]";
    assert token[0] == '[' && token[|token| - 1] == ']';
  }

  /** A flat list is read back exactly when none of its strings holds a comma. */
  lemma ListRoundTrip(items: seq<Value>)
    requires forall k :: 0 <= k < |items| ==> IsScalar(items[k])
    ensures Parse(Print(List(items))) == List(items) <==> forall k :: 0 <= k < |items| ==> CommaFree(items[k])
  {
    if items != [] {
      var s := Join(PrintAll(items), ", ");
      ListParses(items);
      SplitCounts(s, ',');
      CommasInList(items);
      if forall k :: 0 <= k < |items| ==> CommaFree(items[k]) {
        assert "" + s == s;
        PartsReadBack(items, "", |s| + 2);
      }
    }
  }

  // ----------------------------------------------------- documents survive

  /** Values printed and read back as themselves on one line. */
  predicate Survives(v: Value) {
    match v
    case List(items) => forall k :: 0 <= k < |items| ==> IsScalar(items[k]) && CommaFree(items[k]) && StringOneLine(items[k])
    case _ => StringOneLine(v)
  }

  predicate StringOneLine(v: Value) {
    v.Str? ==> OneLine(v.s)
  }

  /** Keys the line format can carry next to this value. */
  predicate KeyFits(key: string, v: Value) {
    Trimmed(key) && OneLine(key) && '=' !in key
    && (key != "" ==> key[0] != '#' && (key[0] == '[' ==> !v.List?))
  }

  predicate EntryFits(entry: (string, Value)) {
    KeyFits(entry.0, entry.1) && Survives(entry.1)
  }

  predicate SectionFits(section: (string, Section)) {
    Trimmed(section.0) && OneLine(section.0) && forall k :: 0 <= k < |section.1| ==> EntryFits(section.1[k])
  }

  function TableOf(values: Section): Values {
    if values == [] then map[] else TableOf(values[..|values| - 1])[values[|values| - 1].0 := values[|values| - 1].1]
  }

  /** The dictionary of dictionaries that was printed. */
  function TablesOf(sections: seq<(string, Section)>): Document {
    if sections == [] then map[]
    else TablesOf(sections[..|sections| - 1])[sections[|sections| - 1].0 := TableOf(sections[|sections| - 1].1)]
  }

  lemma ValueRoundTrip(v: Value)
    requires Survives(v)
    ensures Parse(Print(v)) == v
  {
    if v.List? { ListRoundTrip(v.items); } else { ScalarRoundTrip(v); }
  }

  lemma {:induction false} FirstIndexIs(s: string, rest: string, c: char)
    requires c !in s
    ensures FirstIndex(s + [c] + rest, c) == |s|
  {
    var t := s + [c] + rest;
    if s != "" {
      FirstIndexIs(s[1..], rest, c);
      assert t[1..] == s[1..] + [c] + rest;
    }
  }

  /** What the parser does with a stripped line of the form `left=right`. */
  lemma SplitAtEquals(r: Reading, raw: string, left: string, right: string)
    requires Strip(raw) == left + ['='] + right && '=' !in left
    requires !Bracketed(Strip(raw)) && (left == "" || left[0] != '#')
    ensures ReadLine(r, raw) == Put(r, Strip(left), Parse(Strip(right)))
  {
    var line := Strip(raw);
    FirstIndexIs(left, right, '=');
    assert line[..|left|] == left && line[|left| + 1..] == right;
    assert line[0] == if left == "" then '=' else left[0];
  }

  /** A printed entry is read back under its key. */
  lemma EntryReadsBack(r: Reading, entry: (string, Value))
    requires EntryFits(entry)
    ensures ReadLine(r, EntryLine(entry)) == Put(r, entry.0, entry.1)
  {
    var key, text := entry.0, Print(entry.1);
    PrintIsTrimmed(entry.1);
    StrippedEntry(key, text);
    var left := if key == "" then "" else key + " ";
    EntryIsNoHeader(key, text, entry.1);
    assert left + "= " + text == left + ['='] + (" " + text);
    SplitAtEquals(r, EntryLine(entry), left, " " + text);
    StripPadded(key);
    StripPadded(text);
    StripKeepsTrimmed(key);
    ValueRoundTrip(entry.1);
  }

  lemma EntryIsNoHeader(key: string, text: string, v: Value)
    requires KeyFits(key, v) && text == Print(v)
    ensures !Bracketed((if key == "" then "" else key + " ") + "= " + text)
  {
    PrintIsTrimmed(v);
    var line := (if key == "" then "" else key + " ") + "= " + text;
    assert line[0] == if key == "" then '=' else key[0];
    assert line[|line| - 1] == text[|text| - 1];
  }

  lemma StrippedEntry(key: string, text: string)
    requires Trimmed(key) && Trimmed(text) && text != ""
    ensures Strip(key + " = " + text) == (if key == "" then "" else key + " ") + "= " + text
  {
    var line := key + " = " + text;
    if key == "" {
      assert line == " " + ("= " + text);
      assert Trimmed("= " + text);
      StripPadded("= " + text);
    } else {
      StripKeepsTrimmed(line);
    }
  }

  lemma HeaderReadsBack(r: Reading, name: string)
    requires Trimmed(name)
    ensures ReadLine(r, "[" + name + "]") == Reading(r.tables[name := map[]], Some(name))
  {
    BracketsComeOff(name);
    StripKeepsTrimmed(name);
    StripKeepsTrimmed("[" + name + "]");
  }

  lemma PutTwice(tables: Document, name: string, before: Values, key: string, value: Value)
    ensures Put(Reading(tables[name := before], Some(name)), key, value)
            == Reading(tables[name := before[key := value]], Some(name))
  {
    assert tables[name := before][name := before[key := value]] == tables[name := before[key := value]];
  }

  lemma {:induction false} EntriesReadBack(tables: Document, name: string, values: Section)
    requires forall k :: 0 <= k < |values| ==> EntryFits(values[k])
    ensures ReadLines(Reading(tables[name := map[]], Some(name)), EntryLines(values))
            == Reading(tables[name := TableOf(values)], Some(name))
  {
    if values != [] {
      var front, last := values[..|values| - 1], values[|values| - 1];
      EntriesReadBack(tables, name, front);
      FoldLast(READ, Reading(tables[name := map[]], Some(name)), EntryLines(front), EntryLine(last));
      EntryReadsBack(Reading(tables[name := TableOf(front)], Some(name)), last);
      PutTwice(tables, name, TableOf(front), last.0, last.1);
    }
  }

  lemma SectionReadsBack(r: Reading, section: (string, Section))
    requires SectionFits(section)
    ensures ReadLines(r, SectionLines(section)) == Reading(r.tables[section.0 := TableOf(section.1)], Some(section.0))
  {
    var header := "[" + section.0 + "]";
    FoldConcat(READ, r, [header], EntryLines(section.1));
    FoldLast(READ, r, [], header);
    assert [] + [header] == [header];
    HeaderReadsBack(r, section.0);
    EntriesReadBack(r.tables, section.0, section.1);
  }

  lemma {:induction false} LinesReadBack(sections: seq<(string, Section)>)
    requires sections != [] && forall k :: 0 <= k < |sections| ==> SectionFits(sections[k])
    ensures ReadLines(BLANK, AllLines(sections)).tables == TablesOf(sections)
  {
    var front, last := sections[..|sections| - 1], sections[|sections| - 1];
    if |sections| == 1 {
      SectionReadsBack(BLANK, last);
      assert TablesOf(front) == map[];
    } else {
      LinesReadBack(front);
      FoldConcat(READ, BLANK, AllLines(front) + [""], SectionLines(last));
      FoldLast(READ, BLANK, AllLines(front), "");
      var r := ReadLines(BLANK, AllLines(front));
      assert ReadLine(r, "") == r;
      SectionReadsBack(r, last);
    }
  }

  lemma {:induction false} ReplaceOneLine(s: string, from: string, into: string)
    requires from != "" && OneLine(s) && OneLine(into)
    ensures OneLine(Replace(s, from, into))
  {
    if s != "" {
      if HasPrefix(s, from) { ReplaceOneLine(s[|from|..], from, into); } else { ReplaceOneLine(s[1..], from, into); }
    }
  }

  lemma ScalarPrintsOneLine(v: Value)
    requires IsScalar(v) && StringOneLine(v)
    ensures OneLine(Print(v))
  {
    match v
    case Bool(_) =>
    case Int(i) => IntTextShape(i);
    case Str(s) =>
      ReplaceOneLine(s, "\\", "\\\\");
      ReplaceOneLine(Replace(s, "\\", "\\\\"), "\"", "\\\"");
  }

  lemma {:induction false} ItemsPrintOneLine(items: seq<Value>)
    requires forall k :: 0 <= k < |items| ==> IsScalar(items[k]) && StringOneLine(items[k])
    ensures OneLine(Join(PrintAll(items), ", "))
  {
    if items != [] {
      ScalarPrintsOneLine(items[0]);
      ItemsPrintOneLine(items[1..]);
    }
  }

  lemma EntryIsOneLine(entry: (string, Value))
    requires EntryFits(entry)
    ensures OneLine(EntryLine(entry))
  {
    match entry.1
    case List(items) => ItemsPrintOneLine(items);
    case _ => ScalarPrintsOneLine(entry.1);
  }

  /** No printed line holds a line end, and a section's last line ends with something visible. */
  predicate GoodLines(lines: seq<string>) {
    && (forall k :: 0 <= k < |lines| ==> OneLine(lines[k]))
    && (lines != [] ==> var last := lines[|lines| - 1]; last != "" && !IsSpace(last[|last| - 1]))
  }

  lemma {:induction false} EntriesAreGood(values: Section)
    requires forall k :: 0 <= k < |values| ==> EntryFits(values[k])
    ensures GoodLines(EntryLines(values))
  {
    if values != [] {
      var last := values[|values| - 1];
      EntriesAreGood(values[..|values| - 1]);
      EntryIsOneLine(last);
      PrintIsTrimmed(last.1);
    }
  }

  lemma SectionIsGood(section: (string, Section))
    requires SectionFits(section)
    ensures GoodLines(SectionLines(section))
  {
    EntriesAreGood(section.1);
    var header := "[" + section.0 + "]";
    assert OneLine(header);
    assert header[|header| - 1] == ']';
  }

  lemma {:induction false} AllLinesAreGood(sections: seq<(string, Section)>)
    requires forall k :: 0 <= k < |sections| ==> SectionFits(sections[k])
    ensures GoodLines(AllLines(sections)) && (sections != [] ==> AllLines(sections) != [])
  {
    if sections != [] {
      SectionIsGood(sections[|sections| - 1]);
      if |sections| > 1 { AllLinesAreGood(sections[..|sections| - 1]); }
    }
  }

  lemma {:induction false} JoinEndsLikeLast(lines: seq<string>)
    requires lines != [] && lines[|lines| - 1] != ""
    ensures var s, last := Join(lines, "\n"), lines[|lines| - 1];
            s != "" && s[|s| - 1] == last[|last| - 1]
  {
    if |lines| > 1 { JoinEndsLikeLast(lines[1..]); }
  }

  lemma {:induction false} JoinBlankEnd(lines: seq<string>)
    requires lines != []
    ensures Join(lines + [""], "\n") == Join(lines, "\n") + "\n"
  {
    if |lines| == 1 {
      assert (lines + [""])[1..] == [""];
    } else {
      JoinBlankEnd(lines[1..]);
      assert (lines + [""])[1..] == lines[1..] + [""];
    }
  }

  /** Stripping takes off exactly the line feed the last blank line left, and nothing of the last value. */
  lemma TextIsItsLines(lines: seq<string>)
    requires lines != [] && GoodLines(lines)
    ensures SplitLines(RStrip(Join(lines + [""], "\n")) + "\n") == lines
  {
    var s := Join(lines, "\n");
    JoinBlankEnd(lines);
    JoinEndsLikeLast(lines);
    assert (s + "\n")[..|s|] == s;
    assert RStrip(s + "\n") == RStrip(s) == s;
    JoinWithLineFeeds(lines);
    SplitTerminated(lines);
  }

  lemma NoSections()
    ensures ReadLines(BLANK, SplitLines("\n")) == BLANK
  {
    FirstBreakIs("\n", 0);
    assert SplitLines("\n") == [""] + SplitLines("");
    FoldLast(READ, BLANK, [], "");
    assert [] + [""] == [""];
  }

  /**
   Reading a printed document gives back every table, for trimmed one-line names, keys without `=` that do not start
   like a comment or a header, one-line strings, and flat lists whose strings hold no comma.
   */
  lemma DocumentRoundTrip(sections: seq<(string, Section)>)
    requires forall k :: 0 <= k < |sections| ==> SectionFits(sections[k])
    ensures ReadLines(BLANK, SplitLines(DumpText(sections))).tables == TablesOf(sections)
  {
    if sections == [] {
      NoSections();
    } else {
      AllLinesAreGood(sections);
      TextIsItsLines(AllLines(sections));
      LinesReadBack(sections);
    }
  }

  /** The same through the two loops themselves. */
  method DumpThenLoad(sections: seq<(string, Section)>) returns (tables: Document)
    requires forall k :: 0 <= k < |sections| ==> SectionFits(sections[k])
    ensures tables == TablesOf(sections)
  {
    var text := Dump(sections);
    tables := Load(text);
    DocumentRoundTrip(sections);
  }
}
