/** Normalization of extracted page text: line breaks, control characters, blanks and empty lines; its results are its
    fixed points. */
module PageText {
  /** Unicode category Cc. */
  predicate IsControl(c: char) {
    c as int < 0x20 || 0x7F <= c as int <= 0x9F
  }

  /** What stripping removes. */
  predicate IsBlank(c: char) {
    var n := c as int;
    0x09 <= n <= 0x0D || 0x1C <= n <= 0x20 || n == 0x85 || n == 0xA0 || n == 0x1680 || 0x2000 <= n <= 0x200A ||
    n == 0x2028 || n == 0x2029 || n == 0x202F || n == 0x205F || n == 0x3000
  }

  // ---------------------------------------------------------------- the steps

  /** "\\r\\n" and then "\\r" become "\\n". */
  function UnifyBreaks(t: string): string {
    if t == "" then ""
    else if t[0] == '\r' then
      if |t| > 1 && t[1] == '\n' then "\n" + UnifyBreaks(t[2..]) else "\n" + UnifyBreaks(t[1..])
    else [t[0]] + UnifyBreaks(t[1..])
  }

  predicate Kept(c: char) {
    c == '\n' || c == '\t' || !IsControl(c)
  }

  function DropControls(t: string): string {
    if t == "" then "" else (if Kept(t[0]) then [t[0]] else "") + DropControls(t[1..])
  }

  function Split(t: string): (lines: seq<string>)
    ensures lines != []
  {
    if t == "" then [""]
    else
      var rest := Split(t[1..]);
      if t[0] == '\n' then [""] + rest else [[t[0]] + rest[0]] + rest[1..]
  }

  function Join(lines: seq<string>): string {
    if lines == [] then "" else if |lines| == 1 then lines[0] else lines[0] + "\n" + Join(lines[1..])
  }

  predicate IsGap(c: char) {
    c == ' ' || c == '\t'
  }

  /** Each run of spaces and tabs becomes one space. */
  function Collapse(line: string): string {
    if line == "" then ""
    else if !IsGap(line[0]) then [line[0]] + Collapse(line[1..])
    else if |line| > 1 && IsGap(line[1]) then Collapse(line[1..])
    else " " + Collapse(line[1..])
  }

  function StripLeft(s: string): string {
    if s != "" && IsBlank(s[0]) then StripLeft(s[1..]) else s
  }

  function StripRight(s: string): string {
    if s != "" && IsBlank(s[|s| - 1]) then StripRight(s[..|s| - 1]) else s
  }

  function Strip(s: string): string {
    StripRight(StripLeft(s))
  }

  function NormalizeLine(line: string): string {
    Strip(Collapse(line))
  }

  function NormalizedLines(lines: seq<string>): seq<string> {
    if lines == [] then []
    else
      var line := NormalizeLine(lines[0]);
      (if line != "" then [line] else []) + NormalizedLines(lines[1..])
  }

  function NormalizePageText(t: string): string {
    Strip(Join(NormalizedLines(Split(DropControls(UnifyBreaks(t))))))
  }

  // ---------------------------------------------------------------- what the steps do

  /** The white space of Unicode, with the four separators of ASCII. */
  lemma BlankExactly(c: char)
    ensures IsBlank(c) <==> c as int in [
      0x09, 0x0A, 0x0B, 0x0C, 0x0D, 0x1C, 0x1D, 0x1E, 0x1F, 0x20, 0x85, 0xA0, 0x1680, 0x2000, 0x2001, 0x2002, 0x2003, 0x2004,
      0x2005, 0x2006, 0x2007, 0x2008, 0x2009, 0x200A, 0x2028, 0x2029, 0x202F, 0x205F, 0x3000]
    ensures !IsControl(c) <==> 0x20 <= c as int < 0x7F || 0xA0 <= c as int
  {
  }

  /** Line breaks of either form become "\n", wherever they stand; a text may be cut anywhere but inside "\r\n". */
  lemma {:induction false} BreaksUnify(a: string, b: string)
    requires a != "" && b != "" ==> !(a[|a| - 1] == '\r' && b[0] == '\n')
    ensures UnifyBreaks(a + b) == UnifyBreaks(a) + UnifyBreaks(b)
  {
    if a == "" {
      assert a + b == b;
    } else if a[0] == '\r' && |a| > 1 && a[1] == '\n' {
      assert (a + b)[2..] == a[2..] + b;
      BreaksUnify(a[2..], b);
    } else {
      assert (a + b)[1..] == a[1..] + b;
      BreaksUnify(a[1..], b);
    }
  }

  lemma BreaksAlone(c: char)
    ensures UnifyBreaks("\r\n") == "\n" && UnifyBreaks("\r") == "\n"
    ensures c != '\r' ==> UnifyBreaks([c]) == [c]
  {
    assert UnifyBreaks("\r\n"[2..]) == "" && UnifyBreaks("\r"[1..]) == "" && UnifyBreaks([c][1..]) == "";
  }

  // ---------------------------------------------------------------- no visible character is lost

  ghost predicate Visible(c: char) {
    !IsControl(c) && !IsBlank(c)
  }

  ghost function VisibleOf(t: string): string {
    if t == "" then "" else (if Visible(t[0]) then [t[0]] else "") + VisibleOf(t[1..])
  }

  ghost function VisibleOfLines(lines: seq<string>): string {
    if lines == [] then "" else VisibleOf(lines[0]) + VisibleOfLines(lines[1..])
  }

  lemma {:induction false} VisibleAppend(a: string, b: string)
    ensures VisibleOf(a + b) == VisibleOf(a) + VisibleOf(b)
  {
    hide Visible;
    if a == "" {
      assert a + b == b;
    } else {
      assert (a + b)[1..] == a[1..] + b;
      VisibleAppend(a[1..], b);
    }
  }

  lemma VisibleOfOne(c: char)
    ensures VisibleOf([c]) == if Visible(c) then [c] else ""
  {
    assert [c][1..] == "";
  }

  lemma {:induction false} BreaksKeepVisible(t: string)
    ensures VisibleOf(UnifyBreaks(t)) == VisibleOf(t)
  {
    if t != "" {
      if t[0] == '\r' && |t| > 1 && t[1] == '\n' {
        BreaksKeepVisible(t[2..]);
        assert t[1..][1..] == t[2..];
        VisibleAppend("\n", UnifyBreaks(t[2..]));
        VisibleOfOne('\n');
      } else {
        BreaksKeepVisible(t[1..]);
        var first := if t[0] == '\r' then '\n' else t[0];
        assert UnifyBreaks(t) == [first] + UnifyBreaks(t[1..]);
        VisibleAppend([first], UnifyBreaks(t[1..]));
        VisibleOfOne(first);
      }
    }
  }

  lemma {:induction false} DropsKeepVisible(t: string)
    ensures VisibleOf(DropControls(t)) == VisibleOf(t)
  {
    if t != "" {
      DropsKeepVisible(t[1..]);
      var first := if Kept(t[0]) then [t[0]] else "";
      VisibleAppend(first, DropControls(t[1..]));
      VisibleOfOne(t[0]);
    }
  }

  lemma {:induction false} SplitKeepsVisible(t: string)
    ensures VisibleOfLines(Split(t)) == VisibleOf(t)
  {
    if t == "" {
      assert Split(t)[1..] == [] && VisibleOfLines([]) == "";
    } else {
      SplitKeepsVisible(t[1..]);
      var rest := Split(t[1..]);
      if t[0] == '\n' {
        assert Split(t) == [""] + rest && Split(t)[1..] == rest;
      } else {
        var first := [t[0]] + rest[0];
        assert Split(t) == [first] + rest[1..] && Split(t)[1..] == rest[1..];
        VisibleAppend([t[0]], rest[0]);
        VisibleOfOne(t[0]);
      }
    }
  }

  lemma {:induction false} JoinKeepsVisible(lines: seq<string>)
    ensures VisibleOf(Join(lines)) == VisibleOfLines(lines)
  {
    if |lines| == 1 {
      assert lines[1..] == [];
    } else if |lines| > 1 {
      JoinKeepsVisible(lines[1..]);
      VisibleAppend(lines[0] + "\n", Join(lines[1..]));
      VisibleAppend(lines[0], "\n");
      VisibleOfOne('\n');
    }
  }

  lemma {:induction false} CollapseKeepsVisible(line: string)
    ensures VisibleOf(Collapse(line)) == VisibleOf(line)
  {
    if line != "" {
      CollapseKeepsVisible(line[1..]);
      var first := if IsGap(line[0]) then ' ' else line[0];
      VisibleAppend([first], Collapse(line[1..]));
      VisibleOfOne(first);
    }
  }

  lemma {:induction false} StripLeftKeepsVisible(s: string)
    ensures VisibleOf(StripLeft(s)) == VisibleOf(s)
    decreases |s|
  {
    if s != "" && IsBlank(s[0]) {
      StripLeftKeepsVisible(s[1..]);
    }
  }

  lemma {:induction false} StripRightKeepsVisible(s: string)
    ensures VisibleOf(StripRight(s)) == VisibleOf(s)
    decreases |s|
  {
    if s != "" && IsBlank(s[|s| - 1]) {
      var front, last := s[..|s| - 1], s[|s| - 1];
      StripRightKeepsVisible(front);
      assert s == front + [last];
      VisibleAppend(front, [last]);
      VisibleOfOne(last);
    }
  }

  lemma StripKeepsVisible(s: string)
    ensures VisibleOf(Strip(s)) == VisibleOf(s)
  {
    StripLeftKeepsVisible(s);
    StripRightKeepsVisible(StripLeft(s));
  }

  lemma {:induction false} LinesKeepVisible(lines: seq<string>)
    ensures VisibleOfLines(NormalizedLines(lines)) == VisibleOfLines(lines)
  {
    if lines != [] {
      hide Collapse, Strip;
      var line, rest := NormalizeLine(lines[0]), NormalizedLines(lines[1..]);
      LinesKeepVisible(lines[1..]);
      CollapseKeepsVisible(lines[0]);
      StripKeepsVisible(Collapse(lines[0]));
      if line != "" {
        assert NormalizedLines(lines) == [line] + rest && ([line] + rest)[1..] == rest;
      } else {
        assert NormalizedLines(lines) == rest;
      }
    }
  }

  /** Normalization keeps every visible character, in order, and adds none. */
  lemma NormalizationKeepsVisible(t: string)
    ensures VisibleOf(NormalizePageText(t)) == VisibleOf(t)
  {
    hide UnifyBreaks, DropControls, Split, NormalizedLines, Join, Strip;
    var unified := UnifyBreaks(t);
    var kept := DropControls(unified);
    var lines := NormalizedLines(Split(kept));
    BreaksKeepVisible(t);
    DropsKeepVisible(unified);
    SplitKeepsVisible(kept);
    LinesKeepVisible(Split(kept));
    JoinKeepsVisible(lines);
    StripKeepsVisible(Join(lines));
  }

  // ---------------------------------------------------------------- normalized text

  /** A line that no step would change. */
  ghost predicate CleanLine(line: string) {
    line != "" && !IsBlank(line[0]) && !IsBlank(line[|line| - 1]) &&
    (forall c :: c in line ==> !IsControl(c)) &&
    forall i :: 0 <= i < |line| - 1 ==> !(line[i] == ' ' && line[i + 1] == ' ')
  }

  /** Empty, or made of clean lines only. */
  ghost predicate IsNormalized(t: string) {
    t == "" || forall line :: line in Split(t) ==> CleanLine(line)
  }

  ghost predicate NoBreak(line: string) {
    '\n' !in line
  }

  lemma {:induction false} JoinSplit(t: string)
    ensures Join(Split(t)) == t
  {
    if t != "" {
      JoinSplit(t[1..]);
      var rest := Split(t[1..]);
      assert t == [t[0]] + t[1..];
      if t[0] == '\n' {
        assert ([""] + rest)[1..] == rest;
      } else {
        var lines := [[t[0]] + rest[0]] + rest[1..];
        assert lines[1..] == rest[1..] && rest == [rest[0]] + rest[1..];
      }
    }
  }

  /** Lines hold only characters of the text, and no line break. */
  ghost predicate LinesOf(lines: seq<string>, t: string) {
    forall line, c :: line in lines && c in line ==> c in t && c != '\n'
  }

  lemma {:induction false} SplitLines(t: string)
    ensures LinesOf(Split(t), t)
  {
    if t != "" {
      SplitLines(t[1..]);
      var rest, lines := Split(t[1..]), Split(t);
      assert t == [t[0]] + t[1..];
      forall line, c | line in lines && c in line ensures c in t && c != '\n' {
        if t[0] == '\n' {
          assert line in rest;
        } else if line != lines[0] {
          assert line in rest[1..] && line in rest;
        } else if c != t[0] {
          assert rest[0] in rest && c in rest[0];
        }
      }
    }
  }

  lemma {:induction false} SplitLine(line: string)
    requires NoBreak(line)
    ensures Split(line) == [line]
  {
    if line != "" {
      SplitLine(line[1..]);
      assert line == [line[0]] + line[1..];
    }
  }

  lemma {:induction false} SplitAfterLine(line: string, rest: string)
    requires NoBreak(line)
    ensures Split(line + "\n" + rest) == [line] + Split(rest)
  {
    var t := line + "\n" + rest;
    if line == "" {
      assert t[1..] == rest;
    } else {
      SplitAfterLine(line[1..], rest);
      assert t[1..] == line[1..] + "\n" + rest;
      assert line == [line[0]] + line[1..];
    }
  }

  lemma {:induction false} SplitJoin(lines: seq<string>)
    requires lines != [] && forall line :: line in lines ==> NoBreak(line)
    ensures Split(Join(lines)) == lines
  {
    assert lines[0] in lines;
    if |lines| == 1 {
      SplitLine(lines[0]);
    } else {
      forall line | line in lines[1..] ensures NoBreak(line) {
        assert line in lines;
      }
      SplitJoin(lines[1..]);
      SplitAfterLine(lines[0], Join(lines[1..]));
      assert lines == [lines[0]] + lines[1..];
    }
  }

  lemma {:induction false} CharsOfText(t: string, c: char)
    requires c in t && c != '\n'
    ensures exists line :: line in Split(t) && c in line
  {
    var rest := Split(t[1..]);
    assert t == [t[0]] + t[1..];
    if t[0] == '\n' {
      CharsOfText(t[1..], c);
    } else {
      var first := [t[0]] + rest[0];
      assert first == Split(t)[0];
      if c == t[0] {
        assert c in first;
      } else {
        CharsOfText(t[1..], c);
        var line :| line in rest && c in line;
        if line == rest[0] {
          assert c in first;
        } else {
          assert line in rest[1..];
        }
      }
    }
  }

  // ---------------------------------------------------------------- the steps leave clean text alone

  lemma {:induction false} UnifyBreaksKeeps(t: string)
    requires '\r' !in t
    ensures UnifyBreaks(t) == t
  {
    if t != "" {
      assert t == [t[0]] + t[1..];
      assert t[0] in t;
      UnifyBreaksKeeps(t[1..]);
    }
  }

  lemma {:induction false} DropControlsKeeps(t: string)
    requires forall c :: c in t ==> Kept(c)
    ensures DropControls(t) == t
  {
    if t != "" {
      assert t == [t[0]] + t[1..];
      assert t[0] in t;
      DropControlsKeeps(t[1..]);
    }
  }

  lemma {:induction false} CollapseKeeps(line: string)
    requires '\t' !in line && forall i :: 0 <= i < |line| - 1 ==> !(line[i] == ' ' && line[i + 1] == ' ')
    ensures Collapse(line) == line
  {
    if line != "" {
      assert line == [line[0]] + line[1..];
      assert line[0] in line;
      assert |line| > 1 ==> line[1] in line;
      CollapseKeeps(line[1..]);
    }
  }

  lemma CleanLineIsKept(line: string)
    requires CleanLine(line)
    ensures NormalizeLine(line) == line
  {
    assert IsControl('\t');
    CollapseKeeps(line);
  }

  lemma {:induction false} CleanLinesAreKept(lines: seq<string>)
    requires forall line :: line in lines ==> CleanLine(line)
    ensures NormalizedLines(lines) == lines
  {
    if lines != [] {
      assert lines[0] in lines;
      CleanLineIsKept(lines[0]);
      CleanLinesAreKept(lines[1..]);
      assert lines == [lines[0]] + lines[1..];
    }
  }

  lemma {:induction false} JoinEnds(lines: seq<string>)
    requires lines != [] && forall line :: line in lines ==> CleanLine(line)
    ensures Join(lines) != "" && !IsBlank(Join(lines)[0]) && !IsBlank(Join(lines)[|Join(lines)| - 1])
  {
    hide IsBlank;
    assert lines[0] in lines;
    if |lines| > 1 {
      forall line | line in lines[1..] ensures CleanLine(line) {
        assert line in lines;
      }
      JoinEnds(lines[1..]);
    }
  }

  /** Normalized text is a fixed point. */
  lemma NormalizedIsKept(t: string)
    requires IsNormalized(t)
    ensures NormalizePageText(t) == t
  {
    hide IsBlank;
    if t == "" {
      assert Split("") == [""];
      assert NormalizedLines([""]) == [];
    } else {
      forall c | c in t ensures c == '\n' || !IsControl(c) {
        if c != '\n' {
          CharsOfText(t, c);
        }
      }
      assert IsControl('\r');
      UnifyBreaksKeeps(t);
      DropControlsKeeps(t);
      CleanLinesAreKept(Split(t));
      JoinSplit(t);
      JoinEnds(Split(t));
    }
  }

  // ---------------------------------------------------------------- the steps produce clean text

  lemma {:induction false} DropControlsLeavesKept(t: string)
    ensures forall c :: c in DropControls(t) ==> Kept(c)
  {
    if t != "" {
      DropControlsLeavesKept(t[1..]);
    }
  }

  ghost predicate Collapsed(s: string) {
    (forall c :: c in s ==> !IsControl(c)) && forall i :: 0 <= i < |s| - 1 ==> !(s[i] == ' ' && s[i + 1] == ' ')
  }

  ghost predicate Collapsible(line: string) {
    forall c :: c in line ==> c == '\t' || !IsControl(c)
  }

  lemma {:induction false} CollapseIsCollapsed(line: string)
    requires Collapsible(line)
    ensures Collapsed(Collapse(line))
    ensures line != "" && !IsGap(line[0]) ==> Collapse(line) != "" && Collapse(line)[0] == line[0]
  {
    if line != "" {
      var rest := line[1..];
      assert line[0] in line;
      forall c | c in rest ensures c in line {
      }
      CollapseIsCollapsed(rest);
      var tail := Collapse(rest);
      if !IsGap(line[0]) {
        assert Collapse(line) == [line[0]] + tail;
      } else if !(|line| > 1 && IsGap(line[1])) {
        assert Collapse(line) == " " + tail;
        assert tail != "" ==> rest != "" && tail[0] == rest[0];
      }
    }
  }

  lemma SliceIsCollapsed(s: string, i: nat, j: nat)
    requires Collapsed(s) && i <= j <= |s|
    ensures Collapsed(s[i..j])
  {
    var t := s[i..j];
    forall k | 0 <= k < |t| - 1 ensures !(t[k] == ' ' && t[k + 1] == ' ') {
      assert t[k] == s[i + k] && t[k + 1] == s[i + k + 1];
    }
    forall c | c in t ensures c in s {
    }
  }

  lemma {:induction false} StripLeftIsClean(s: string)
    requires Collapsed(s)
    ensures Collapsed(StripLeft(s)) && (StripLeft(s) != "" ==> !IsBlank(StripLeft(s)[0]))
  {
    if s != "" && IsBlank(s[0]) {
      SliceIsCollapsed(s, 1, |s|);
      assert s[1..|s|] == s[1..];
      StripLeftIsClean(s[1..]);
    }
  }

  lemma {:induction false} StripRightIsClean(s: string)
    requires Collapsed(s) && (s != "" ==> !IsBlank(s[0]))
    ensures StripRight(s) != "" ==> CleanLine(StripRight(s))
  {
    if s != "" && IsBlank(s[|s| - 1]) {
      SliceIsCollapsed(s, 0, |s| - 1);
      assert s[0..|s| - 1] == s[..|s| - 1];
      StripRightIsClean(s[..|s| - 1]);
    }
  }

  lemma {:induction false} NormalizedLinesAreClean(lines: seq<string>)
    requires forall line :: line in lines ==> Collapsible(line)
    ensures forall line :: line in NormalizedLines(lines) ==> CleanLine(line)
  {
    hide CleanLine, Collapsible, Collapsed;
    if lines != [] {
      assert lines[0] in lines;
      CollapseIsCollapsed(lines[0]);
      StripLeftIsClean(Collapse(lines[0]));
      StripRightIsClean(StripLeft(Collapse(lines[0])));
      forall line | line in lines[1..] ensures Collapsible(line) {
        assert line in lines;
      }
      NormalizedLinesAreClean(lines[1..]);
    }
  }

  /** Whatever the extracted text, the result is normalized. */
  lemma NormalizationNormalizes(t: string)
    ensures IsNormalized(NormalizePageText(t))
  {
    hide IsBlank, UnifyBreaks;
    var clean := DropControls(UnifyBreaks(t));
    DropControlsLeavesKept(UnifyBreaks(t));
    SplitLines(clean);
    forall line | line in Split(clean) ensures Collapsible(line) {
    }
    var lines := NormalizedLines(Split(clean));
    NormalizedLinesAreClean(Split(clean));
    if lines != [] {
      JoinEnds(lines);
      assert NormalizePageText(t) == Join(lines);
      forall line | line in lines ensures NoBreak(line) {
        assert IsControl('\n');
      }
      SplitJoin(lines);
    }
  }

  /** Normalizing twice is normalizing once. */
  lemma NormalizationIsIdempotent(t: string)
    ensures NormalizePageText(NormalizePageText(t)) == NormalizePageText(t)
  {
    NormalizationNormalizes(t);
    NormalizedIsKept(NormalizePageText(t));
  }
}
