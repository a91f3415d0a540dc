/** `worker_scaffold.py`: the managed block of the project's `.dockerignore` and the check that guards it. */
module DockerIgnore {
  import opened Common
  import opened Text

  /** The two marker lines and the patterns between them. */
  datatype Policy = Policy(begin: string, end: string, excludes: seq<string>)

  const BEGIN := "# qairt-agent managed exclusions: begin"
  const END := "# qairt-agent managed exclusions: end"

  const PATTERNS := [
    ".git/", ".venv/", ".qairt-agent/", "__pycache__/", ".pytest_cache/", ".coverage", "qnn/", "qairt/", "models/",
    "artifacts/", "*.onnx", "*.bin", "*.raw", "*.pkl", "*.pickle"]

  const MANAGED := Policy(BEGIN, END, PATTERNS)

  predicate IsMarker(p: Policy, line: string) {
    Strip(line) == p.begin || Strip(line) == p.end
  }

  /** What the merge relies on: markers and patterns are single lines, and no pattern is a marker. */
  predicate Usable(p: Policy) {
    && OneLine(p.begin) && OneLine(p.end) && Trimmed(p.begin) && Trimmed(p.end)
    && p.begin != p.end && p.begin != "" && p.end != ""
    && (forall k :: 0 <= k < |p.excludes| ==> OneLine(p.excludes[k]) && !IsMarker(p, p.excludes[k]))
  }

  /** Lines outside managed blocks, and whether a block is still open at the end. */
  function Outside(p: Policy, lines: seq<string>): (seq<string>, bool) {
    if lines == [] then ([], false)
    else
      var (kept, open) := Outside(p, lines[..|lines| - 1]);
      var last := lines[|lines| - 1];
      if Strip(last) == p.begin then (kept, true)
      else if Strip(last) == p.end then (kept, false)
      else if open then (kept, true)
      else (kept + [last], false)
  }

  function DropBlankTail(lines: seq<string>): (kept: seq<string>)
    ensures kept <= lines
    ensures kept != [] ==> Strip(kept[|kept| - 1]) != ""
  {
    if lines != [] && Strip(lines[|lines| - 1]) == "" then DropBlankTail(lines[..|lines| - 1]) else lines
  }

  /** The user's own lines: what the merge keeps of a text. */
  function OwnLines(p: Policy, text: string): seq<string> {
    DropBlankTail(Outside(p, SplitLines(text)).0)
  }

  function Block(p: Policy): seq<string> {
    [p.begin] + p.excludes + [p.end]
  }

  function MergedLines(p: Policy, own: seq<string>): seq<string> {
    own + (if own == [] then [] else [""]) + Block(p)
  }

  /** `_merge_dockerignore`; `written` says whether the file is touched. */
  method Merge(p: Policy, original: string) returns (content: string, written: bool)
    ensures content == Terminated(MergedLines(p, OwnLines(p, original)))
    ensures written == (content != original)
  {
    var lines := SplitLines(original);
    var retained: seq<string> := [];
    var inBlock := false;
    var i := 0;
    while i < |lines|
      invariant 0 <= i <= |lines| && (retained, inBlock) == Outside(p, lines[..i])
    {
      assert lines[..i + 1][..i] == lines[..i];
      var line := lines[i];
      i := i + 1;
      if Strip(line) == p.begin {
        inBlock := true;
        continue;
      }
      if Strip(line) == p.end {
        inBlock := false;
        continue;
      }
      if !inBlock {
        retained := retained + [line];
      }
    }
    assert lines[..i] == lines;
    while retained != [] && Strip(retained[|retained| - 1]) == ""
      invariant DropBlankTail(retained) == OwnLines(p, original)
      decreases |retained|
    {
      retained := retained[..|retained| - 1];
    }
    var managed := [p.begin] + p.excludes + [p.end];
    var all := retained + (if retained == [] then [] else [""]) + managed;
    JoinWithLineFeeds(all);
    content := Join(all, "\n") + "\n";
    written := content != original;
  }

  // ----------------------------------------------------------- the checker

  datatype Issue = BlockMissing | BlockNotLast | PatternsMissing(patterns: seq<string>)

  /** Position of the last line equal to `line`. */
  function LastIndex(lines: seq<string>, line: string): (i: Option<nat>)
    ensures i.None? <==> line !in lines
    ensures i.Some? ==> i.value < |lines| && lines[i.value] == line && line !in lines[i.value + 1..]
  {
    if lines == [] then None
    else if lines[|lines| - 1] == line then Some(|lines| - 1)
    else
      var i := LastIndex(lines[..|lines| - 1], line);
      assert i.Some? ==> lines[i.value + 1..] == lines[..|lines| - 1][i.value + 1..] + [lines[|lines| - 1]];
      i
  }

  function Missing(excludes: seq<string>, managed: seq<string>): (missing: seq<string>)
    ensures missing == [] <==> forall k :: 0 <= k < |excludes| ==> excludes[k] in managed
  {
    if excludes == [] then []
    else
      var rest := Missing(excludes[..|excludes| - 1], managed);
      var last := excludes[|excludes| - 1];
      if last in managed then rest else rest + [last]
  }

  /** `lines[begin + 1 : end]`, empty when the markers are the wrong way round. */
  function Between(lines: seq<string>, begin: nat, end: nat): seq<string>
    requires begin < |lines| && end < |lines|
  {
    if begin < end then lines[begin + 1..end] else []
  }

  method FindMissing(excludes: seq<string>, managed: seq<string>) returns (missing: seq<string>)
    ensures missing == Missing(excludes, managed)
  {
    missing := [];
    var i := 0;
    while i < |excludes|
      invariant 0 <= i <= |excludes| && missing == Missing(excludes[..i], managed)
    {
      assert excludes[..i + 1][..i] == excludes[..i];
      if excludes[i] !in managed { missing := missing + [excludes[i]]; }
      i := i + 1;
    }
    assert excludes[..i] == excludes;
  }

  /** The `.dockerignore` part of `worker_build_context_issues`. */
  method Check(p: Policy, text: string) returns (issues: seq<Issue>)
    ensures issues == IssuesOf(p, SplitLines(text))
  {
    var lines := SplitLines(text);
    issues := [];
    var begin, end := LastIndex(lines, p.begin), LastIndex(lines, p.end);
    if begin.None? || end.None? {
      return [BlockMissing];
    }
    var managed := Between(lines, begin.value, end.value);
    var missing := FindMissing(p.excludes, managed);
    if end.value != |lines| - 1 { issues := issues + [BlockNotLast]; }
    if missing != [] { issues := issues + [PatternsMissing(missing)]; }
  }

  function IssuesOf(p: Policy, lines: seq<string>): seq<Issue> {
    var begin, end := LastIndex(lines, p.begin), LastIndex(lines, p.end);
    if begin.None? || end.None? then [BlockMissing]
    else
      var managed := Between(lines, begin.value, end.value);
      var missing := Missing(p.excludes, managed);
      (if end.value != |lines| - 1 then [BlockNotLast] else []) + (if missing != [] then [PatternsMissing(missing)] else [])
  }

  lemma {:induction false} LastIndexIs(lines: seq<string>, line: string, i: nat)
    requires i < |lines| && lines[i] == line && line !in lines[i + 1..]
    ensures LastIndex(lines, line) == Some(i)
  {
    var n := |lines| - 1;
    if i < n {
      assert lines[i + 1..][n - i - 1] == lines[n];
      assert lines[..n][i + 1..] + [lines[n]] == lines[i + 1..];
      LastIndexIs(lines[..n], line, i);
    }
  }

  /** From line b on: the last block opens here, closes on the last line and lists every pattern. */
  predicate EndsInBlock(p: Policy, lines: seq<string>, b: nat) {
    && b < |lines| - 1 && lines[b] == p.begin && p.begin !in lines[b + 1..] && lines[|lines| - 1] == p.end
    && forall k :: 0 <= k < |p.excludes| ==> p.excludes[k] in lines[b + 1..|lines| - 1]
  }

  lemma BlockSilences(p: Policy, lines: seq<string>, b: nat)
    requires EndsInBlock(p, lines, b)
    ensures IssuesOf(p, lines) == []
  {
    LastIndexIs(lines, p.begin, b);
    LastIndexIs(lines, p.end, |lines| - 1);
  }

  /** The checker is silent exactly when the text ends in a block that lists every pattern. */
  lemma SilentExactlyWhen(p: Policy, lines: seq<string>)
    requires p.excludes != []
    ensures IssuesOf(p, lines) == [] <==> exists b: nat :: EndsInBlock(p, lines, b)
  {
    if IssuesOf(p, lines) == [] {
      assert EndsInBlock(p, lines, LastIndex(lines, p.begin).value);
    }
    if b: nat :| EndsInBlock(p, lines, b) {
      BlockSilences(p, lines, b);
    }
  }

  /** `at` lists, in order, exactly the positions of the patterns that are not among the managed lines. */
  ghost predicate ListsMissing(excludes: seq<string>, managed: seq<string>, missing: seq<string>, at: seq<nat>) {
    && |at| == |missing|
    && (forall k :: 0 <= k < |at| ==> at[k] < |excludes| && missing[k] == excludes[at[k]] && missing[k] !in managed)
    && (forall j, k :: 0 <= j < k < |at| ==> at[j] < at[k])
    && (forall i: nat :: i < |excludes| && excludes[i] !in managed ==> i in at)
  }

  lemma {:induction false} MissingIsListed(excludes: seq<string>, managed: seq<string>) returns (at: seq<nat>)
    ensures ListsMissing(excludes, managed, Missing(excludes, managed), at)
  {
    at := [];
    if excludes != [] {
      var n := |excludes| - 1;
      at := MissingIsListed(excludes[..n], managed);
      if excludes[n] !in managed {
        ListGrows(excludes, managed, Missing(excludes[..n], managed), at);
        at := at + [n];
      }
    }
  }

  lemma ListGrows(excludes: seq<string>, managed: seq<string>, missing: seq<string>, at: seq<nat>)
    requires excludes != [] && excludes[|excludes| - 1] !in managed
    requires ListsMissing(excludes[..|excludes| - 1], managed, missing, at)
    ensures ListsMissing(excludes, managed, missing + [excludes[|excludes| - 1]], at + [|excludes| - 1])
  {
    var n := |excludes| - 1;
    forall i: nat | i < |excludes| && excludes[i] !in managed ensures i in at + [n] {
      if i < n { assert excludes[..n][i] == excludes[i]; }
    }
  }

  /** Line `i` is the last one equal to `line`. */
  predicate IsLast(lines: seq<string>, line: string, i: nat) {
    i < |lines| && lines[i] == line && line !in lines[i + 1..]
  }

  /**
   Which issues a text raises: the block is missing exactly when one of the markers never occurs, and then nothing else
   is said; it is not last exactly when the text does not end with the end marker; and the patterns reported missing
   are exactly those that no line between the last two markers repeats, in their order.
   */
  lemma IssuesMean(p: Policy, lines: seq<string>)
    ensures BlockMissing in IssuesOf(p, lines) <==> p.begin !in lines || p.end !in lines
    ensures BlockMissing in IssuesOf(p, lines) ==> IssuesOf(p, lines) == [BlockMissing]
    ensures BlockNotLast in IssuesOf(p, lines) <==>
              p.begin in lines && p.end in lines && lines[|lines| - 1] != p.end
    ensures forall b: nat, e: nat, missing | IsLast(lines, p.begin, b) && IsLast(lines, p.end, e) ::
              PatternsMissing(missing) in IssuesOf(p, lines) ==>
                missing != [] && exists at :: ListsMissing(p.excludes, Between(lines, b, e), missing, at)
    ensures forall b: nat, e: nat | IsLast(lines, p.begin, b) && IsLast(lines, p.end, e) ::
              (exists missing :: PatternsMissing(missing) in IssuesOf(p, lines)) <==>
              exists k :: 0 <= k < |p.excludes| && p.excludes[k] !in Between(lines, b, e)
  {
    var begin, end := LastIndex(lines, p.begin), LastIndex(lines, p.end);
    if begin.Some? && end.Some? {
      forall b: nat, e: nat | IsLast(lines, p.begin, b) && IsLast(lines, p.end, e) ensures b == begin.value && e == end.value {
        LastIndexIs(lines, p.begin, b);
        LastIndexIs(lines, p.end, e);
      }
      if end.value < |lines| - 1 { assert lines[end.value + 1..][|lines| - 2 - end.value] == lines[|lines| - 1]; }
      var managed := Between(lines, begin.value, end.value);
      var at := MissingIsListed(p.excludes, managed);
      var missing := Missing(p.excludes, managed);
      assert missing != [] ==> PatternsMissing(missing) in IssuesOf(p, lines);
    }
  }

  // ---------------------------------------------------------- main results

  lemma {:induction false} OutsideConcat(p: Policy, a: seq<string>, b: seq<string>)
    requires !Outside(p, a).1
    ensures Outside(p, a + b) == (Outside(p, a).0 + Outside(p, b).0, Outside(p, b).1)
  {
    if b == [] {
      assert a + b == a && Outside(p, a).0 + [] == Outside(p, a).0;
    } else {
      var front, last := b[..|b| - 1], b[|b| - 1];
      OutsideConcat(p, a, front);
      assert (a + b)[..|a + b| - 1] == a + front && (a + b)[|a + b| - 1] == last;
      assert (Outside(p, a).0 + Outside(p, front).0) + [last] == Outside(p, a).0 + (Outside(p, front).0 + [last]);
    }
  }

  lemma {:induction false} OutsideHasNoMarkers(p: Policy, lines: seq<string>)
    ensures forall k :: 0 <= k < |Outside(p, lines).0| ==> !IsMarker(p, Outside(p, lines).0[k]) && Outside(p, lines).0[k] in lines
  {
    if lines != [] { OutsideHasNoMarkers(p, lines[..|lines| - 1]); }
  }

  lemma {:induction false} OutsideOfPlain(p: Policy, lines: seq<string>)
    requires forall k :: 0 <= k < |lines| ==> !IsMarker(p, lines[k])
    ensures Outside(p, lines) == (lines, false)
  {
    if lines != [] {
      OutsideOfPlain(p, lines[..|lines| - 1]);
      assert lines == lines[..|lines| - 1] + [lines[|lines| - 1]];
    }
  }

  lemma {:induction false} OpenBlockSwallows(p: Policy, lines: seq<string>)
    requires Trimmed(p.begin) && forall k :: 0 <= k < |lines| ==> !IsMarker(p, lines[k])
    ensures Outside(p, [p.begin] + lines) == ([], true)
  {
    var all := [p.begin] + lines;
    StripKeepsTrimmed(p.begin);
    if lines == [] {
      assert all[..0] == [];
    } else {
      OpenBlockSwallows(p, lines[..|lines| - 1]);
      assert all[..|all| - 1] == [p.begin] + lines[..|lines| - 1];
    }
  }

  lemma BlockIsInvisible(p: Policy)
    requires Usable(p)
    ensures Outside(p, Block(p)) == ([], false)
  {
    OpenBlockSwallows(p, p.excludes);
    StripKeepsTrimmed(p.end);
    var all := Block(p);
    assert all[..|all| - 1] == [p.begin] + p.excludes;
  }

  /** Lines a merge may keep: single lines, no markers, no blank at the end. */
  predicate Tidy(p: Policy, own: seq<string>) {
    && (forall k :: 0 <= k < |own| ==> OneLine(own[k]) && !IsMarker(p, own[k]))
    && (own != [] ==> Strip(own[|own| - 1]) != "")
  }

  lemma OwnLinesAreTidy(p: Policy, text: string)
    ensures Tidy(p, OwnLines(p, text))
  {
    OutsideHasNoMarkers(p, SplitLines(text));
  }

  /** The kept lines and, after any of them, one blank line. */
  function Front(own: seq<string>): seq<string> {
    own + if own == [] then [] else [""]
  }

  lemma FrontIsPlain(p: Policy, own: seq<string>)
    requires Tidy(p, own) && Usable(p)
    ensures forall k :: 0 <= k < |Front(own)| ==> OneLine(Front(own)[k]) && !IsMarker(p, Front(own)[k])
    ensures DropBlankTail(Front(own)) == own
  {
    assert Strip("") == "";
    if own != [] { assert Front(own)[..|own|] == own; }
  }

  lemma BlockIsLines(p: Policy)
    requires Usable(p)
    ensures forall k :: 0 <= k < |Block(p)| ==> OneLine(Block(p)[k])
  {
  }

  lemma AllOneLine(a: seq<string>, b: seq<string>)
    requires forall k :: 0 <= k < |a| ==> OneLine(a[k])
    requires forall k :: 0 <= k < |b| ==> OneLine(b[k])
    ensures forall k :: 0 <= k < |a + b| ==> OneLine((a + b)[k])
  {
  }

  /** The merged text splits back into exactly the lines it was built from. */
  lemma MergedLinesAreLines(p: Policy, own: seq<string>)
    requires Tidy(p, own) && Usable(p)
    ensures SplitLines(Terminated(MergedLines(p, own))) == MergedLines(p, own)
    ensures MergedLines(p, own) == Front(own) + Block(p)
  {
    FrontIsPlain(p, own);
    BlockIsLines(p);
    AllOneLine(Front(own), Block(p));
    SplitTerminated(Front(own) + Block(p));
  }

  /** What a second merge would keep is what the first kept. */
  lemma OwnLinesOfMerged(p: Policy, own: seq<string>)
    requires Tidy(p, own) && Usable(p)
    ensures OwnLines(p, Terminated(MergedLines(p, own))) == own
  {
    MergedLinesAreLines(p, own);
    BlockIsInvisible(p);
    FrontIsPlain(p, own);
    OutsideOfPlain(p, Front(own));
    OutsideConcat(p, Front(own), Block(p));
    assert Front(own) + [] == Front(own);
  }

  /** Merging twice is merging once, on every text; the second merge does not touch the file. */
  lemma MergeIsIdempotent(p: Policy, text: string)
    requires Usable(p)
    ensures var merged := Terminated(MergedLines(p, OwnLines(p, text)));
            Terminated(MergedLines(p, OwnLines(p, merged))) == merged
  {
    OwnLinesAreTidy(p, text);
    OwnLinesOfMerged(p, OwnLines(p, text));
  }

  /**
   The merged text is the user's lines in their order, without trailing blanks, and then one managed block as the
   last lines; no other line is a marker, so no later pattern can undo the block.
   */
  lemma MergeKeepsOwnLines(p: Policy, text: string)
    requires Usable(p)
    ensures var lines := SplitLines(Terminated(MergedLines(p, OwnLines(p, text))));
            var front := |lines| - |Block(p)|;
            && front >= 0 && lines[front..] == Block(p)
            && (forall k :: 0 <= k < front ==> !IsMarker(p, lines[k]))
            && DropBlankTail(lines[..front]) == DropBlankTail(Outside(p, SplitLines(text)).0)
  {
    OwnLinesAreTidy(p, text);
    var own := OwnLines(p, text);
    MergedLinesAreLines(p, own);
    FrontIsPlain(p, own);
    assert (Front(own) + Block(p))[..|Front(own)|] == Front(own);
  }

  /** The checker raises nothing on a merged text, whatever the text was before. */
  lemma MergedTextPassesTheCheck(p: Policy, text: string)
    requires Usable(p)
    ensures IssuesOf(p, SplitLines(Terminated(MergedLines(p, OwnLines(p, text))))) == []
  {
    OwnLinesAreTidy(p, text);
    var own := OwnLines(p, text);
    MergedLinesAreLines(p, own);
    FrontIsPlain(p, own);
    MergedEndsInBlock(p, Front(own));
    BlockSilences(p, Front(own) + Block(p), |Front(own)|);
  }

  lemma MergedEndsInBlock(p: Policy, front: seq<string>)
    requires Usable(p)
    ensures EndsInBlock(p, front + Block(p), |front|)
  {
    var lines, b := front + Block(p), |front|;
    StripKeepsTrimmed(p.begin);
    assert lines[b] == p.begin && lines[|lines| - 1] == p.end;
    assert lines[b + 1..] == p.excludes + [p.end];
    assert lines[b + 1..|lines| - 1] == p.excludes;
  }

  lemma BeginIsALine()
    ensures OneLine(BEGIN) && Trimmed(BEGIN) && |BEGIN| == 39
  {
  }

  lemma EndIsALine()
    ensures OneLine(END) && Trimmed(END) && |END| == 37
  {
  }

  lemma FirstPatternsAreLines()
    ensures forall k :: 0 <= k < 6 ==> OneLine(PATTERNS[k]) && |PATTERNS[k]| < 20
  {
  }

  lemma LastPatternsAreLines()
    ensures forall k :: 6 <= k < 15 ==> OneLine(PATTERNS[k]) && |PATTERNS[k]| < 20
  {
  }

  lemma ShortIsNoMarker(p: Policy, line: string)
    requires |p.begin| >= 20 && |p.end| >= 20 && |line| < 20
    ensures !IsMarker(p, line)
  {
  }

  lemma ManagedIsUsable()
    ensures Usable(MANAGED)
  {
    BeginIsALine();
    EndIsALine();
    FirstPatternsAreLines();
    LastPatternsAreLines();
    forall k | 0 <= k < |PATTERNS| ensures OneLine(PATTERNS[k]) && !IsMarker(MANAGED, PATTERNS[k]) {
      ShortIsNoMarker(MANAGED, PATTERNS[k]);
    }
  }

  /** With the repository's own markers and patterns. */
  lemma ManagedBlockIsSafe(text: string)
    ensures var merged := Terminated(MergedLines(MANAGED, OwnLines(MANAGED, text)));
            && IssuesOf(MANAGED, SplitLines(merged)) == []
            && Terminated(MergedLines(MANAGED, OwnLines(MANAGED, merged))) == merged
  {
    ManagedIsUsable();
    MergedTextPassesTheCheck(MANAGED, text);
    MergeIsIdempotent(MANAGED, text);
  }
}
