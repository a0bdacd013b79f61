/**
 Secret redaction (observability/redact.py): three patterns, each replaced from
 left to right by a fixed marker. A pattern is a literal, optionally a run of
 whitespace, then a run of at least `minRun` characters of a class.
 */
module Redact {
  import opened Collections

  datatype Class = KeyChars | AlphaNum | TokenChars

  datatype Pattern = Pattern(literal: string, foldCase: bool, gap: bool, class_: Class, minRun: nat)

  const ANTHROPIC := Pattern("sk-ant-api03-", false, false, KeyChars, 10)
  const GENERIC := Pattern("sk-", false, false, AlphaNum, 20)
  const BEARER := Pattern("bearer", true, true, TokenChars, 20)

  const PATTERNS: seq<Pattern> := [ANTHROPIC, GENERIC, BEARER]

  const REDACTED := "***REDACTED***"

  predicate IsAlphaNum(c: char) {
    'A' <= c <= 'Z' || 'a' <= c <= 'z' || '0' <= c <= '9'
  }

  /** The four non-ASCII letters that `[A-Za-z]` matches under IGNORECASE. */
  predicate IsFoldedLetter(c: char) {
    c == '\U{0130}' || c == '\U{0131}' || c == '\U{017F}' || c == '\U{212A}'
  }

  predicate InClass(p: Pattern, c: char) {
    match p.class_
    case KeyChars => IsAlphaNum(c) || c == '_' || c == '-'
    case AlphaNum => IsAlphaNum(c)
    case TokenChars => IsAlphaNum(c) || c == '.' || c == '_' || c == '-' || (p.foldCase && IsFoldedLetter(c))
  }

  /** Python's `\\s` on text. */
  predicate IsSpace(c: char) {
    || '\t' <= c <= '\r' || '\U{001C}' <= c <= ' ' || c == '\U{0085}' || c == '\U{00A0}'
    || c == '\U{1680}' || '\U{2000}' <= c <= '\U{200A}' || c == '\U{2028}' || c == '\U{2029}'
    || c == '\U{202F}' || c == '\U{205F}' || c == '\U{3000}'
  }

  /** ASCII lower case; no other character folds to a letter of a literal used here. */
  function Lower(c: char): char {
    if 'A' <= c <= 'Z' then c - 'A' + 'a' else c
  }

  predicate LiteralAt(p: Pattern, s: string) {
    |p.literal| <= |s|
    && forall i :: 0 <= i < |p.literal| ==> (if p.foldCase then Lower(s[i]) else s[i]) == p.literal[i]
  }

  /** The length of the leading run of whitespace. */
  function SpaceRun(s: string): (n: nat)
    ensures n <= |s| && (forall i :: 0 <= i < n ==> IsSpace(s[i]))
    ensures n < |s| ==> !IsSpace(s[n])
  {
    if s == [] || !IsSpace(s[0]) then 0 else SpaceRun(s[1..]) + 1
  }

  /** The length of the leading run of class characters. */
  function ClassRun(p: Pattern, s: string): (n: nat)
    ensures n <= |s| && (forall i :: 0 <= i < n ==> InClass(p, s[i]))
    ensures n < |s| ==> !InClass(p, s[n])
  {
    if s == [] || !InClass(p, s[0]) then 0 else ClassRun(p, s[1..]) + 1
  }

  /** The length of the greedy match at the start of `s`, or 0 when there is none. */
  function MatchLen(p: Pattern, s: string): (n: nat)
    ensures n <= |s|
  {
    if !LiteralAt(p, s) then 0 else
      var start := |p.literal|;
      var gap := if p.gap then SpaceRun(s[start..]) else 0;
      var run := ClassRun(p, s[start + gap..]);
      if (p.gap && gap == 0) || run < p.minRun then 0 else start + gap + run
  }

  /** `re.sub`: scans left to right, replacing each match and copying every other character. */
  function Sub(p: Pattern, s: string): string
    decreases |s|
  {
    if s == [] then []
    else if MatchLen(p, s) > 0 then REDACTED + Sub(p, s[MatchLen(p, s)..])
    else [s[0]] + Sub(p, s[1..])
  }

  function RedactWith(patterns: seq<Pattern>, text: string): string {
    if patterns == [] then text
    else Sub(patterns[|patterns| - 1], RedactWith(patterns[..|patterns| - 1], text))
  }

  function RedactSpec(text: string): string {
    RedactWith(PATTERNS, text)
  }

  ghost predicate GapMatch(p: Pattern, w: string, gap: nat) {
    && |p.literal| + gap + p.minRun <= |w|
    && (p.gap <==> gap > 0)
    && (forall i :: |p.literal| <= i < |p.literal| + gap ==> IsSpace(w[i]))
    && (forall i :: |p.literal| + gap <= i < |w| ==> InClass(p, w[i]))
  }

  /**
   The regular language of a pattern, independently of any scan: the literal, a
   gap of whitespace (non-empty, or absent for a pattern without a gap), and at
   least `minRun` class characters.
   */
  ghost predicate FullMatch(p: Pattern, w: string) {
    LiteralAt(p, w) && exists gap: nat :: GapMatch(p, w, gap)
  }

  /** No substring of `s` is in the language of `p`. */
  ghost predicate Clean(p: Pattern, s: string) {
    forall i, j {:trigger s[i..j]} :: 0 <= i <= j <= |s| ==> !FullMatch(p, s[i..j])
  }

  ghost predicate AllClean(s: string) {
    forall p :: p in PATTERNS ==> Clean(p, s)
  }

  /** What the marker relies on: no match contains `*`, and none fits inside the marker's word. */
  ghost predicate Sound(p: Pattern) {
    && 0 < p.minRun && 8 < |p.literal| + p.minRun
    && forall i :: 0 <= i < |p.literal| ==> p.literal[i] != '*'
  }

  lemma PatternsAreSound()
    ensures forall p :: p in PATTERNS ==> Sound(p)
  {
  }

  lemma SpaceRunIsExact(s: string, n: nat)
    requires n < |s| && (forall i :: 0 <= i < n ==> IsSpace(s[i])) && !IsSpace(s[n])
    ensures SpaceRun(s) == n
  {
  }

  lemma ClassRunIsAtLeast(p: Pattern, s: string, n: nat)
    requires n <= |s| && forall i :: 0 <= i < n ==> InClass(p, s[i])
    ensures n <= ClassRun(p, s)
  {
  }

  /** The greedy whitespace run stops where the class begins: no character is in both. */
  lemma GapIsFound(p: Pattern, s: string, k: nat, gap: nat)
    requires Sound(p) && k <= |s| && GapMatch(p, s[..k], gap)
    ensures (if p.gap then SpaceRun(s[|p.literal|..]) else 0) == gap
  {
    if p.gap {
      var rest := s[|p.literal|..];
      assert forall i :: 0 <= i <= gap ==> rest[i] == s[..k][|p.literal| + i];
      SpaceRunIsExact(rest, gap);
    }
  }

  lemma LongestPrefix(p: Pattern, s: string, k: nat)
    requires Sound(p) && k <= |s| && FullMatch(p, s[..k])
    ensures 0 < k <= MatchLen(p, s)
  {
    var w := s[..k];
    var gap: nat :| GapMatch(p, w, gap);
    assert LiteralAt(p, s);
    GapIsFound(p, s, k, gap);
    var rest := s[|p.literal| + gap..];
    assert forall i :: 0 <= i < k - (|p.literal| + gap) ==> rest[i] == w[|p.literal| + gap + i];
    ClassRunIsAtLeast(p, rest, k - (|p.literal| + gap));
  }

  lemma FoundIsMatch(p: Pattern, s: string)
    requires MatchLen(p, s) > 0
    ensures FullMatch(p, s[..MatchLen(p, s)])
  {
    var start := |p.literal|;
    var gap := if p.gap then SpaceRun(s[start..]) else 0;
    var run := ClassRun(p, s[start + gap..]);
    var w := s[..start + gap + run];
    forall i | start <= i < start + gap ensures IsSpace(w[i]) {
      assert w[i] == s[start..][i - start];
    }
    forall i | start + gap <= i < |w| ensures InClass(p, w[i]) {
      assert w[i] == s[start + gap..][i - (start + gap)];
    }
    assert GapMatch(p, w, gap);
  }

  /** The scanner finds a match exactly when some prefix is in the language, and then the longest one. */
  lemma MatchLenIsLongest(p: Pattern, s: string)
    requires Sound(p)
    ensures MatchLen(p, s) > 0 ==> FullMatch(p, s[..MatchLen(p, s)])
    ensures forall k :: 0 <= k <= |s| && FullMatch(p, s[..k]) ==> 0 < k <= MatchLen(p, s)
  {
    if MatchLen(p, s) > 0 {
      FoundIsMatch(p, s);
    }
    forall k | 0 <= k <= |s| && FullMatch(p, s[..k]) ensures 0 < k <= MatchLen(p, s) {
      LongestPrefix(p, s, k);
    }
  }

  lemma FullMatchHasNoStar(p: Pattern, w: string)
    requires Sound(p) && FullMatch(p, w)
    ensures 8 < |w| && forall i :: 0 <= i < |w| ==> w[i] != '*'
  {
    var gap: nat :| GapMatch(p, w, gap);
    forall i | 0 <= i < |w| ensures w[i] != '*' {
      if i < |p.literal| {
        assert (if p.foldCase then Lower(w[i]) else w[i]) == p.literal[i];
      }
    }
  }

  lemma StarOrShortIsNoMatch(p: Pattern, w: string, k: nat)
    requires Sound(p) && (|w| <= 8 || (k < |w| && w[k] == '*'))
    ensures !FullMatch(p, w)
  {
    if FullMatch(p, w) {
      FullMatchHasNoStar(p, w);
    }
  }

  /** Putting the marker in front of clean text creates no match. */
  lemma MarkerKeepsClean(q: Pattern, s: string)
    requires Sound(q) && Clean(q, s)
    ensures Clean(q, REDACTED + s)
  {
    var whole := REDACTED + s;
    forall i, j | 0 <= i <= j <= |whole| ensures !FullMatch(q, whole[i..j]) {
      if i < |REDACTED| {
        var star := if 3 <= i <= 11 then 11 else i;
        assert whole[star] == '*';
        StarOrShortIsNoMatch(q, whole[i..j], star - i);
      } else {
        assert whole[i..j] == s[i - |REDACTED|..j - |REDACTED|];
      }
    }
  }

  /** Up to the first marker, the output is a copy of the input. */
  lemma {:induction false} StarFreePrefixIsCopied(p: Pattern, s: string, k: nat)
    requires k <= |Sub(p, s)| && forall i :: 0 <= i < k ==> Sub(p, s)[i] != '*'
    ensures k <= |s| && Sub(p, s)[..k] == s[..k]
    decreases |s|
  {
    if s != [] && MatchLen(p, s) > 0 {
      assert Sub(p, s)[0] == '*';
    } else if s != [] && k > 0 {
      var rest := Sub(p, s[1..]);
      assert forall i :: 0 <= i < k - 1 ==> rest[i] == Sub(p, s)[i + 1];
      StarFreePrefixIsCopied(p, s[1..], k - 1);
      PrefixOfCons(s[0], rest, k);
      PrefixOfCons(s[0], s[1..], k);
      assert [s[0]] + s[1..] == s;
    }
  }

  lemma CleanSuffix(q: Pattern, s: string, k: nat)
    requires Clean(q, s) && k <= |s|
    ensures Clean(q, s[k..])
  {
    forall i, j | 0 <= i <= j <= |s[k..]| ensures !FullMatch(q, s[k..][i..j]) {
      SliceOfSuffix(s, k, i, j);
    }
  }

  /** Where the scan copied, a match at the start of the output would be one at the start of the input. */
  lemma StarFreeHeadIsNoMatch(q: Pattern, p: Pattern, s: string, j: nat)
    requires Sound(p) && Sound(q) && (p == q || Clean(q, s)) && MatchLen(p, s) == 0
    requires j <= |Sub(p, s)|
    ensures !FullMatch(q, Sub(p, s)[0..j])
  {
    var out := Sub(p, s);
    if k :| 0 <= k < j && out[k] == '*' {
      assert out[0..j][k] == '*';
      StarOrShortIsNoMatch(q, out[0..j], k);
    } else {
      StarFreePrefixIsCopied(p, s, j);
      assert out[0..j] == s[..j] == s[0..j];
      MatchLenIsLongest(p, s);
    }
  }

  /** A pass removes every match of its own pattern and creates none of any other. */
  lemma {:induction false} SubIsClean(q: Pattern, p: Pattern, s: string)
    requires Sound(p) && Sound(q) && (p == q || Clean(q, s))
    ensures Clean(q, Sub(p, s))
    decreases |s|
  {
    if s == [] {
      forall i, j | 0 <= i <= j <= |Sub(p, s)| ensures !FullMatch(q, Sub(p, s)[i..j]) {
      }
    } else if MatchLen(p, s) > 0 {
      if p != q { CleanSuffix(q, s, MatchLen(p, s)); }
      SubIsClean(q, p, s[MatchLen(p, s)..]);
      MarkerKeepsClean(q, Sub(p, s[MatchLen(p, s)..]));
    } else {
      if p != q { CleanSuffix(q, s, 1); }
      SubIsClean(q, p, s[1..]);
      var out, rest := Sub(p, s), Sub(p, s[1..]);
      forall i, j | 0 <= i <= j <= |out| ensures !FullMatch(q, out[i..j]) {
        if i > 0 {
          SliceOfCons(s[0], rest, i, j);
          assert !FullMatch(q, rest[i - 1..j - 1]);
        } else {
          StarFreeHeadIsNoMatch(q, p, s, j);
        }
      }
    }
  }

  /** A pass over text without matches changes nothing. */
  lemma {:induction false} SubOfCleanIsIdentity(p: Pattern, s: string)
    requires Sound(p) && Clean(p, s)
    ensures Sub(p, s) == s
    decreases |s|
  {
    if s != [] {
      MatchLenIsLongest(p, s);
      assert s[..MatchLen(p, s)] == s[0..MatchLen(p, s)];
      CleanSuffix(p, s, 1);
      SubOfCleanIsIdentity(p, s[1..]);
      assert s == [s[0]] + s[1..];
    }
  }

  /** Where the leftmost match starts; the length of the text when there is none. */
  function FirstMatch(p: Pattern, s: string): (i: nat)
    ensures i <= |s|
  {
    if s == [] || MatchLen(p, s) > 0 then 0 else FirstMatch(p, s[1..]) + 1
  }

  lemma {:induction false} FirstMatchIsLeftmost(p: Pattern, s: string, k: nat)
    requires Sound(p) && k < |s|
    ensures k < FirstMatch(p, s) ==> MatchLen(p, s[k..]) == 0
    ensures k == FirstMatch(p, s) ==> MatchLen(p, s[k..]) > 0
  {
    if k == 0 {
      assert s[0..] == s;
    } else if MatchLen(p, s) == 0 {
      assert s[1..][k - 1..] == s[k..];
      FirstMatchIsLeftmost(p, s[1..], k - 1);
    }
  }

  /** What the scan emits for text that starts with a match: the marker, then the scan of what follows the match. */
  function FromMatch(p: Pattern, s: string): string {
    if s == [] then [] else REDACTED + Sub(p, s[MatchLen(p, s)..])
  }

  function FromFirstMatch(p: Pattern, s: string): string {
    FromMatch(p, s[FirstMatch(p, s)..])
  }

  lemma FromFirstMatchSkips(p: Pattern, s: string)
    requires s != [] && MatchLen(p, s) == 0
    ensures FromFirstMatch(p, s) == FromFirstMatch(p, s[1..])
  {
    SuffixOfSuffix(s, 1, FirstMatch(p, s) - 1);
  }

  /** Leftmost and greedy: everything before the first match is kept as it is. */
  lemma {:induction false} SubReplacesFirstMatch(p: Pattern, s: string)
    ensures Sub(p, s) == s[..FirstMatch(p, s)] + FromFirstMatch(p, s)
  {
    if s != [] && MatchLen(p, s) > 0 {
      EmptyPrefix(s);
    } else if s != [] {
      var tail, i := s[1..], FirstMatch(p, s);
      HeadAndTail(s);
      SubReplacesFirstMatch(p, tail);
      FromFirstMatchSkips(p, s);
      Regroup([s[0]], tail[..i - 1], FromFirstMatch(p, s));
      PrefixOfCons(s[0], tail, i);
    }
  }

  lemma RedactUnfolds(text: string)
    ensures RedactSpec(text) == Sub(BEARER, Sub(GENERIC, Sub(ANTHROPIC, text)))
  {
    assert PATTERNS[..2] == [ANTHROPIC, GENERIC] && [ANTHROPIC, GENERIC][..1] == [ANTHROPIC];
    var empty: seq<Pattern> := [ANTHROPIC][..0];
    assert RedactWith(empty, text) == text;
    assert RedactWith([ANTHROPIC], text) == Sub(ANTHROPIC, text);
    assert RedactWith([ANTHROPIC, GENERIC], text) == Sub(GENERIC, Sub(ANTHROPIC, text));
  }

  /** After `redact` no substring matches any pattern: no pass re-creates a match for an earlier one. */
  lemma RedactedIsClean(text: string)
    ensures AllClean(RedactSpec(text))
  {
    PatternsAreSound();
    RedactUnfolds(text);
    var one := Sub(ANTHROPIC, text);
    var two := Sub(GENERIC, one);
    SubIsClean(ANTHROPIC, ANTHROPIC, text);
    SubIsClean(ANTHROPIC, GENERIC, one);
    SubIsClean(ANTHROPIC, BEARER, two);
    SubIsClean(GENERIC, GENERIC, one);
    SubIsClean(GENERIC, BEARER, two);
    SubIsClean(BEARER, BEARER, two);
  }

  /** `redact` leaves a text alone exactly when it holds no secret. */
  lemma RedactFixesExactlyClean(text: string)
    ensures RedactSpec(text) == text <==> AllClean(text)
  {
    RedactedIsClean(text);
    if AllClean(text) {
      PatternsAreSound();
      RedactUnfolds(text);
      SubOfCleanIsIdentity(ANTHROPIC, text);
      SubOfCleanIsIdentity(GENERIC, text);
      SubOfCleanIsIdentity(BEARER, text);
    }
  }

  lemma RedactIsIdempotent(text: string)
    ensures RedactSpec(RedactSpec(text)) == RedactSpec(text)
  {
    RedactedIsClean(text);
    RedactFixesExactlyClean(RedactSpec(text));
  }

  /** `redact`: one pass per pattern. */
  /** The three passes, each over the result of the one before. */
  lemma PassesInOrder(text: string)
    ensures RedactSpec(text) == Sub(BEARER, Sub(GENERIC, Sub(ANTHROPIC, text)))
  {
    var one, two := [ANTHROPIC], [ANTHROPIC, GENERIC];
    assert one[..0] == [] && two[..1] == one && PATTERNS[..2] == two;
    assert RedactWith(one, text) == Sub(ANTHROPIC, RedactWith([], text));
    assert RedactWith(two, text) == Sub(GENERIC, RedactWith(one, text));
    assert RedactWith(PATTERNS, text) == Sub(BEARER, RedactWith(two, text));
  }

  method Redact(input: string) returns (text: string)
    ensures text == RedactSpec(input)
    ensures forall p, i, j :: p in PATTERNS && 0 <= i <= j <= |text| ==> !FullMatch(p, text[i..j])
  {
    text := input;
    for k := 0 to |PATTERNS|
      invariant text == RedactWith(PATTERNS[..k], input)
    {
      assert PATTERNS[..k + 1][..k] == PATTERNS[..k];
      text := Sub(PATTERNS[k], text);
    }
    assert PATTERNS[..|PATTERNS|] == PATTERNS;
    RedactedIsClean(input);
    forall p, i, j | p in PATTERNS && 0 <= i <= j <= |text| ensures !FullMatch(p, text[i..j]) {
      assert Clean(p, text);
    }
  }
}
