/**
 Colouring a unified diff (tui/render.py). The whole diff is redacted, split
 into lines, and every line is redacted again by `safe_text`, whose plain text
 is taken to be `redact` of its argument.
 */
module Render {
  import opened Collections
  import Redact
  import opened Wrappers

  datatype Style = Green | Red | Cyan | Dim

  datatype Segment = Segment(plain: string, style: Option<Style>)

  /** The `plain` attribute of a rendered text. */
  function Plain(out: seq<Segment>): string {
    if out == [] then [] else Plain(out[..|out| - 1]) + out[|out| - 1].plain
  }

  /** `str.split("\n")`: always at least one piece. */
  function Split(s: string): (lines: seq<string>)
    ensures lines != []
  {
    if s == [] then [[]]
    else
      var rest := Split(s[1..]);
      if s[0] == '\n' then [[]] + rest else [[s[0]] + rest[0]] + rest[1..]
  }

  /** `"\n".join`. */
  function Join(lines: seq<string>): string {
    if lines == [] then []
    else if |lines| == 1 then lines[0]
    else Join(lines[..|lines| - 1]) + "\n" + lines[|lines| - 1]
  }

  function LineStyle(line: string): Style {
    if "@@" <= line then Cyan
    else if "+++" <= line || "---" <= line then Dim
    else if "+" <= line then Green
    else if "-" <= line then Red
    else Dim
  }

  /** The style of a line by what it begins with; hunk headers come first, and file headers before changes. */
  ghost predicate StyledByPrefix(line: string, style: Style) {
    var n := |line|;
    var hunk := n >= 2 && line[0] == '@' && line[1] == '@';
    var header := n >= 3 && line[0] == line[1] == line[2] && (line[0] == '+' || line[0] == '-');
    && (style == Cyan <==> hunk)
    && (style == Green <==> n >= 1 && line[0] == '+' && !header)
    && (style == Red <==> n >= 1 && line[0] == '-' && !header)
  }

  lemma LineStyleIsByPrefix(line: string)
    ensures StyledByPrefix(line, LineStyle(line))
  {
  }

  lemma {:induction false} JoinExtendsHead(head: string, first: string, rest: seq<string>)
    ensures Join([head + first] + rest) == head + Join([first] + rest)
  {
    if rest == [] {
      assert [head + first] + rest == [head + first] && [first] + rest == [first];
    } else {
      var front, last := rest[..|rest| - 1], rest[|rest| - 1];
      var a, b := [head + first] + rest, [first] + rest;
      assert a[..|a| - 1] == [head + first] + front && b[..|b| - 1] == [first] + front;
      JoinExtendsHead(head, first, front);
    }
  }

  lemma {:induction false} JoinPrependsEmpty(rest: seq<string>)
    requires rest != []
    ensures Join([[]] + rest) == "\n" + Join(rest)
  {
    var a := [[]] + rest;
    if |rest| == 1 {
      assert a[..1] == [[]];
    } else {
      var front := rest[..|rest| - 1];
      assert a[..|a| - 1] == [[]] + front;
      JoinPrependsEmpty(front);
    }
  }

  lemma {:induction false} JoinInvertsSplit(s: string)
    ensures Join(Split(s)) == s
  {
    if s != [] {
      var rest := Split(s[1..]);
      JoinInvertsSplit(s[1..]);
      assert s == [s[0]] + s[1..];
      if s[0] == '\n' {
        JoinPrependsEmpty(rest);
      } else {
        assert rest == [rest[0]] + rest[1..];
        JoinExtendsHead([s[0]], rest[0], rest[1..]);
      }
    }
  }

  function Newlines(s: string): nat {
    if s == [] then 0 else Newlines(s[1..]) + if s[0] == '\n' then 1 else 0
  }

  /** The text is cut at every newline: no line holds one, and there is one line more than there are newlines. */
  lemma {:induction false} SplitCutsAtNewlines(s: string)
    ensures |Split(s)| == Newlines(s) + 1
    ensures forall k :: 0 <= k < |Split(s)| ==> '\n' !in Split(s)[k]
  {
    if s != [] {
      SplitCutsAtNewlines(s[1..]);
    }
  }

  /** Every line is a substring of the text. */
  lemma {:induction false} LinesAreSlices(s: string, k: nat)
    requires k < |Split(s)|
    ensures exists i, j :: 0 <= i <= j <= |s| && Split(s)[k] == s[i..j] && (k == 0 ==> i == 0)
  {
    if s == [] {
      assert Split(s)[0] == s[0..0];
    } else {
      var rest := Split(s[1..]);
      if s[0] == '\n' {
        if k == 0 {
          assert Split(s)[0] == s[0..0];
        } else {
          LinesAreSlices(s[1..], k - 1);
          var i, j :| 0 <= i <= j <= |s[1..]| && rest[k - 1] == s[1..][i..j] && (k - 1 == 0 ==> i == 0);
          assert s[1..][i..j] == s[i + 1..j + 1];
        }
      } else {
        LinesAreSlices(s[1..], k);
        var i, j :| 0 <= i <= j <= |s[1..]| && rest[k] == s[1..][i..j] && (k == 0 ==> i == 0);
        assert s[1..][i..j] == s[i + 1..j + 1];
        if k == 0 {
          assert Split(s)[0] == s[0..j + 1];
        }
      }
    }
  }

  lemma SliceIsClean(p: Redact.Pattern, s: string, i: nat, j: nat)
    requires i <= j <= |s| && Redact.Clean(p, s)
    ensures Redact.Clean(p, s[i..j])
  {
    forall a, b | 0 <= a <= b <= |s[i..j]| ensures !Redact.FullMatch(p, s[i..j][a..b]) {
      SliceOfSlice(s, i, j, a, b);
    }
  }

  /** Redacting a line of redacted text changes nothing. */
  lemma LineOfRedactedIsFixed(text: string, k: nat)
    requires k < |Split(Redact.RedactSpec(text))|
    ensures Redact.RedactSpec(Split(Redact.RedactSpec(text))[k]) == Split(Redact.RedactSpec(text))[k]
  {
    var clean := Redact.RedactSpec(text);
    Redact.RedactedIsClean(text);
    LinesAreSlices(clean, k);
    var i, j :| 0 <= i <= j <= |clean| && Split(clean)[k] == clean[i..j] && (k == 0 ==> i == 0);
    forall p | p in Redact.PATTERNS ensures Redact.Clean(p, clean[i..j]) {
      SliceIsClean(p, clean, i, j);
    }
    Redact.RedactFixesExactlyClean(clean[i..j]);
  }

  function Styled(line: string): Segment {
    Segment(line, Some(LineStyle(line)))
  }

  /** The rendering of some lines: one styled segment each, with unstyled newlines between them. */
  function Segments(lines: seq<string>): seq<Segment> {
    if lines == [] then []
    else if |lines| == 1 then [Styled(lines[0])]
    else Segments(lines[..|lines| - 1]) + [Segment("\n", None)] + [Styled(lines[|lines| - 1])]
  }

  /** Line, newline, line, newline, and so on. */
  lemma {:induction false} SegmentsAlternate(lines: seq<string>, k: nat)
    requires k < |lines|
    ensures |Segments(lines)| == 2 * |lines| - 1
    ensures Segments(lines)[2 * k] == Styled(lines[k])
    ensures k > 0 ==> Segments(lines)[2 * k - 1] == Segment("\n", None)
  {
    if |lines| > 1 {
      SegmentsAlternate(lines[..|lines| - 1], if k < |lines| - 1 then k else 0);
    }
  }

  lemma PlainOfLonger(out: seq<Segment>, segment: Segment)
    ensures Plain(out + [segment]) == Plain(out) + segment.plain
  {
    assert (out + [segment])[..|out + [segment]| - 1] == out;
  }

  /** The plain text of a rendering is the lines joined by newlines. */
  lemma {:induction false} SegmentsPlain(lines: seq<string>)
    ensures Plain(Segments(lines)) == Join(lines)
  {
    if |lines| == 1 {
      PlainOfLonger([], Styled(lines[0]));
      assert [] + [Styled(lines[0])] == [Styled(lines[0])];
    } else if lines != [] {
      var front := lines[..|lines| - 1];
      SegmentsPlain(front);
      PlainOfLonger(Segments(front), Segment("\n", None));
      PlainOfLonger(Segments(front) + [Segment("\n", None)], Styled(lines[|lines| - 1]));
    }
  }

  /** Line `k`, styled by what it begins with, after a plain newline unless it is the first. */
  ghost predicate IsSegmentOf(out: seq<Segment>, lines: seq<string>, k: nat)
    requires k < |lines| && |out| == 2 * |lines| - 1
  {
    && out[2 * k].plain == lines[k] && out[2 * k].style.Some? && StyledByPrefix(lines[k], out[2 * k].style.value)
    && (k > 0 ==> out[2 * k - 1] == Segment("\n", None))
  }

  ghost predicate StylesLines(out: seq<Segment>, lines: seq<string>) {
    |out| == 2 * |lines| - 1 && forall k :: 0 <= k < |lines| ==> IsSegmentOf(out, lines, k)
  }

  lemma SegmentsOneMore(lines: seq<string>, index: nat)
    requires index < |lines|
    ensures Segments(lines[..index + 1]) ==
            (if index == 0 then [] else Segments(lines[..index]) + [Segment("\n", None)]) + [Styled(lines[index])]
  {
    assert lines[..index + 1][..index] == lines[..index];
  }

  /**
   The rendered text is exactly `redact(diff)`, one styled segment per line with
   unstyled newlines between them, although each line is redacted a second time.
   */
  method RenderDiff(diff: string) returns (out: seq<Segment>)
    ensures Plain(out) == Redact.RedactSpec(diff)
    ensures out == Segments(Split(Redact.RedactSpec(diff)))
    ensures StylesLines(out, Split(Redact.RedactSpec(diff)))
  {
    var clean := Redact.Redact(diff);
    var lines := Split(clean);
    out := [];
    for index := 0 to |lines|
      invariant out == Segments(lines[..index])
    {
      LineOfRedactedIsFixed(diff, index);
      SegmentsOneMore(lines, index);
      if index > 0 {
        out := out + [Segment("\n", None)];
      }
      var plain := Redact.Redact(lines[index]);
      out := out + [Segment(plain, Some(LineStyle(lines[index])))];
    }
    assert lines[..|lines|] == lines;
    SegmentsAlternate(lines, 0);
    forall k | 0 <= k < |lines| ensures IsSegmentOf(out, lines, k) {
      SegmentsAlternate(lines, k);
      LineStyleIsByPrefix(lines[k]);
    }
    SegmentsPlain(lines);
    JoinInvertsSplit(clean);
  }
}
