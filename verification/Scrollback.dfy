/** The bounded scrollback (tui/scrollback.py) over the sinks it can spill to. */
module Scrollback {
  import R = Redact
  import opened Artifacts
  import opened Collections
  import opened Wrappers

  const LINE := "line"

  /** What a line is spilled to: nothing, an append-only file, or a run artifact store. */
  datatype Sink =
    | NoSink
    | Lossless(entries: seq<Entry>)
    | Rotating(size: Entry -> nat, cap: int, entries: seq<Entry>)

  datatype State = State(live: seq<string>, sink: Sink, spilledCount: nat)

  function LineEntry(line: string): Entry {
    map[LINE := Text(line)]
  }

  function SpillLine(s: State, line: string): State {
    match s.sink
    case NoSink => s
    case Lossless(entries) => s.(sink := Lossless(entries + [LineEntry(line)]), spilledCount := s.spilledCount + 1)
    case Rotating(size, cap, entries) =>
      s.(sink := Rotating(size, cap, Appended(size, cap, entries, LineEntry(line))), spilledCount := s.spilledCount + 1)
  }

  /** Spills the oldest lines while there are more than `max`. */
  function Trimmed(max: nat, s: State): State
    decreases |s.live|
  {
    if |s.live| <= max then s
    else Trimmed(max, SpillLine(s.(live := s.live[1..]), s.live[0]))
  }

  function Append(max: nat, s: State, line: string): State {
    Trimmed(max, s.(live := s.live + [line]))
  }

  function Run(max: nat, sink: Sink, history: seq<string>): State {
    if history == [] then State([], sink, 0)
    else Append(max, Run(max, sink, history[..|history| - 1]), history[|history| - 1])
  }

  function LinesOf(entries: seq<Entry>): seq<string> {
    if entries == [] then []
    else
      var e := entries[|entries| - 1];
      LinesOf(entries[..|entries| - 1]) + [if LINE in e then Shown(e[LINE]) else ""]
  }

  function Spilled(sink: Sink): seq<string> {
    if sink.NoSink? then [] else LinesOf(sink.entries)
  }

  function AllLines(s: State): seq<string> {
    Spilled(s.sink) + s.live
  }

  // --- what is live and what is spilled ---------------------------------------------

  function SpillAll(sink: Sink, lines: seq<string>): Sink {
    if lines == [] then sink
    else SpillLine(State([], SpillAll(sink, lines[..|lines| - 1]), 0), lines[|lines| - 1]).sink
  }

  /** How many lines of `n` are too many. */
  function Excess(n: nat, max: nat): nat {
    if n <= max then 0 else n - max
  }

  /** The newest `max` lines are live, and exactly the older ones went to the sink, oldest first. */
  ghost predicate Shape(max: nat, sink: Sink, history: seq<string>, s: State) {
    var k := Excess(|history|, max);
    && s.live == history[k..]
    && s.sink == SpillAll(sink, history[..k]) && s.sink.NoSink? == sink.NoSink?
    && s.spilledCount == (if sink.NoSink? then 0 else k)
  }

  lemma SpillSnoc(sink: Sink, lines: seq<string>, line: string)
    ensures SpillAll(sink, lines + [line]) == SpillLine(State([], SpillAll(sink, lines), 0), line).sink
  {
    assert (lines + [line])[..|lines + [line]| - 1] == lines;
  }

  lemma SliceFacts(front: seq<string>, last: string, k: nat)
    requires k < |front|
    ensures (front + [last])[..k + 1] == front[..k] + [front[k]]
    ensures (front[k..] + [last])[1..] == (front + [last])[k + 1..]
    ensures (front[k..] + [last])[0] == front[k]
  {
  }

  /** An append spills at most one line. */
  lemma AppendOne(max: nat, s: State, line: string)
    requires |s.live| <= max && 1 <= max
    ensures var all := s.live + [line];
            Append(max, s, line) == if |all| <= max then s.(live := all) else SpillLine(s.(live := all[1..]), all[0])
  {
    var all := s.live + [line];
    if |all| > max {
      var next := SpillLine(s.(live := all[1..]), all[0]);
      assert |next.live| <= max;
      assert Trimmed(max, next) == next;
    }
  }

  lemma FullStep(max: nat, sink: Sink, front: seq<string>, last: string, s: State)
    requires 1 <= max <= |front| && Shape(max, sink, front, s)
    ensures Shape(max, sink, front + [last], Append(max, s, last))
  {
    var k := |front| - max;
    AppendOne(max, s, last);
    SliceFacts(front, last, k);
    SpillSnoc(sink, front[..k], front[k]);
  }

  lemma RoomStep(max: nat, sink: Sink, front: seq<string>, last: string, s: State)
    requires |front| < max && Shape(max, sink, front, s)
    ensures Shape(max, sink, front + [last], Append(max, s, last))
  {
    AppendOne(max, s, last);
    EmptyPrefix(front);
    EmptyPrefix(front + [last]);
  }

  lemma {:induction false} LiveAndSpilled(max: nat, sink: Sink, history: seq<string>)
    requires 1 <= max
    ensures Shape(max, sink, history, Run(max, sink, history)) && |Run(max, sink, history).live| <= max
  {
    if history != [] {
      var front, last := history[..|history| - 1], history[|history| - 1];
      LiveAndSpilled(max, sink, front);
      assert history == front + [last];
      if |front| < max {
        RoomStep(max, sink, front, last, Run(max, sink, front));
      } else {
        FullStep(max, sink, front, last, Run(max, sink, front));
      }
    }
  }

  lemma LinesSnoc(entries: seq<Entry>, e: Entry)
    ensures LinesOf(entries + [e]) == LinesOf(entries) + [if LINE in e then Shown(e[LINE]) else ""]
  {
    assert (entries + [e])[..|entries + [e]| - 1] == entries;
  }

  lemma {:induction false} LosslessKeepsLines(lines: seq<string>)
    ensures var sink := SpillAll(Lossless([]), lines);
            sink.Lossless? && LinesOf(sink.entries) == lines
  {
    if lines != [] {
      var front, last := lines[..|lines| - 1], lines[|lines| - 1];
      LosslessKeepsLines(front);
      var before := SpillAll(Lossless([]), front);
      assert SpillAll(Lossless([]), lines) == Lossless(before.entries + [LineEntry(last)]);
      LinesSnoc(before.entries, LineEntry(last));
      assert lines == front + [last];
    }
  }

  /** The tail of `history` from `k` on completes exactly its first `k` lines. */
  lemma TailCompletes(a: seq<string>, history: seq<string>, k: nat)
    requires k <= |history|
    ensures a + history[k..] == history <==> a == history[..k]
  {
    assert history[..k] + history[k..] == history;
    if a + history[k..] == history {
      assert a == (a + history[k..])[..|a|];
    }
  }

  /** Over a sink that keeps everything, spilled lines and live lines are the history. */
  lemma LosslessHistory(max: nat, history: seq<string>)
    requires 1 <= max
    ensures AllLines(Run(max, Lossless([]), history)) == history
    ensures |Run(max, Lossless([]), history).live| <= max
  {
    LiveAndSpilled(max, Lossless([]), history);
    var k := Excess(|history|, max);
    LosslessKeepsLines(history[..k]);
    TailCompletes(history[..k], history, k);
  }

  // --- over the artifact store ---------------------------------------------------------

  function Entries(lines: seq<string>): seq<Entry> {
    if lines == [] then [] else Entries(lines[..|lines| - 1]) + [LineEntry(lines[|lines| - 1])]
  }

  lemma {:induction false} StoreKeepsStored(size: Entry -> nat, cap: int, lines: seq<string>)
    ensures |Entries(lines)| == |lines|
    ensures SpillAll(Rotating(size, cap, []), lines) == Rotating(size, cap, Stored(size, cap, Entries(lines)))
  {
    if lines != [] {
      StoreKeepsStored(size, cap, lines[..|lines| - 1]);
      var entries := Entries(lines);
      assert entries[..|entries| - 1] == Entries(lines[..|lines| - 1]);
    }
  }

  function RedactLines(lines: seq<string>): seq<string> {
    if lines == [] then [] else RedactLines(lines[..|lines| - 1]) + [R.RedactSpec(lines[|lines| - 1])]
  }

  lemma RedactedLine(line: string)
    ensures LINE in RedactEntry(LineEntry(line)) && RedactEntry(LineEntry(line))[LINE] == Text(R.RedactSpec(line))
  {
    assert LINE != MESSAGE;
  }

  lemma {:induction false} LinesOfRedacted(lines: seq<string>)
    ensures LinesOf(RedactAll(Entries(lines))) == RedactLines(lines) && |RedactLines(lines)| == |lines|
  {
    if lines != [] {
      var front, last := lines[..|lines| - 1], lines[|lines| - 1];
      LinesOfRedacted(front);
      var entries := Entries(lines);
      assert entries[..|entries| - 1] == Entries(front);
      RedactedLine(last);
      LinesSnoc(RedactAll(Entries(front)), RedactEntry(LineEntry(last)));
    }
  }

  /** The store keeps all of the spilled lines exactly when they fit the cap, or there is at most one. */
  lemma StoreKeepsAllIff(size: Entry -> nat, cap: int, lines: seq<string>)
    ensures var kept := Stored(size, cap, Entries(lines));
            && |kept| <= |lines|
            && (|kept| == |lines| <==> |lines| <= 1 || Size(size, RedactAll(Entries(lines))) <= cap)
            && (|kept| == |lines| ==> kept == RedactAll(Entries(lines)))
  {
    var all := RedactAll(Entries(lines));
    StoreKeepsStored(size, cap, lines);
    StoredIsRotatedHistory(size, cap, Entries(lines));
    RotatedIsLongest(size, cap, all);
    assert Newest(all, |all|) == all;
  }

  lemma {:induction false} LinesOfLength(entries: seq<Entry>)
    ensures |LinesOf(entries)| == |entries|
  {
    if entries != [] {
      LinesOfLength(entries[..|entries| - 1]);
    }
  }

  lemma {:induction false} RedactedLineAt(lines: seq<string>, i: nat)
    requires i < |lines|
    ensures |RedactLines(lines)| == |lines| && RedactLines(lines)[i] == R.RedactSpec(lines[i])
  {
    LinesOfRedacted(lines[..|lines| - 1]);
    if i < |lines| - 1 {
      RedactedLineAt(lines[..|lines| - 1], i);
    }
  }

  lemma RedactLinesFixesIff(lines: seq<string>)
    ensures RedactLines(lines) == lines <==> forall line :: line in lines ==> R.AllClean(line)
  {
    LinesOfRedacted(lines);
    forall i | 0 <= i < |lines| ensures RedactLines(lines)[i] == lines[i] <==> R.AllClean(lines[i]) {
      RedactedLineAt(lines, i);
      R.RedactFixesExactlyClean(lines[i]);
    }
  }

  /** The lines read back are all that was spilled exactly when the store kept them all and redaction changed none. */
  lemma StoreReturnsIff(size: Entry -> nat, cap: int, lines: seq<string>)
    ensures LinesOf(Stored(size, cap, Entries(lines))) == lines <==>
            && (|lines| <= 1 || Size(size, RedactAll(Entries(lines))) <= cap)
            && (forall line :: line in lines ==> R.AllClean(line))
  {
    StoreKeepsAllIff(size, cap, lines);
    LinesOfLength(Stored(size, cap, Entries(lines)));
    LinesOfRedacted(lines);
    RedactLinesFixesIff(lines);
  }

  /** Over an artifact store the history comes back whole exactly when what was spilled fits the cap and is clean. */
  lemma StoreHistoryIff(max: nat, size: Entry -> nat, cap: int, history: seq<string>)
    requires 1 <= max
    ensures var older := history[..Excess(|history|, max)];
            AllLines(Run(max, Rotating(size, cap, []), history)) == history <==>
            && (|older| <= 1 || Size(size, RedactAll(Entries(older))) <= cap)
            && (forall line :: line in older ==> R.AllClean(line))
  {
    var k := Excess(|history|, max);
    var older, sink := history[..k], Rotating(size, cap, []);
    LiveAndSpilled(max, sink, history);
    StoreKeepsStored(size, cap, older);
    StoreReturnsIff(size, cap, older);
    TailCompletes(LinesOf(Stored(size, cap, Entries(older))), history, k);
  }

  class ScrollbackBuffer {
    const maxLines: nat
    var live: seq<string>
    var sink: Sink
    var spilledCount: nat

    constructor (maxLines: nat, sink: Sink)
      requires 1 <= maxLines
      ensures this.maxLines == maxLines && Content() == State([], sink, 0)
    {
      this.maxLines := maxLines;
      this.live, this.sink, this.spilledCount := [], sink, 0;
    }

    ghost function Content(): State
      reads this
    {
      State(live, sink, spilledCount)
    }

    method AppendLine(line: string)
      modifies this
      ensures Content() == Append(maxLines, old(Content()), line)
    {
      live := live + [line];
      while |live| > maxLines
        invariant Trimmed(maxLines, Content()) == Append(maxLines, old(Content()), line)
        decreases |live|
      {
        var oldest := live[0];
        live := live[1..];
        Spill(oldest);
      }
    }

    method Spill(line: string)
      modifies this
      ensures Content() == SpillLine(old(Content()), line)
    {
      match sink {
        case NoSink =>
        case Lossless(entries) =>
          sink := Lossless(entries + [LineEntry(line)]);
          spilledCount := spilledCount + 1;
        case Rotating(size, cap, entries) =>
          var store := new RunArtifactStore(cap, size, entries);
          store.Append(LineEntry(line));
          sink := Rotating(size, cap, store.file);
          spilledCount := spilledCount + 1;
      }
    }

    method History() returns (lines: seq<string>)
      ensures lines == AllLines(Content())
    {
      lines := Spilled(sink) + live;
    }
  }

  datatype ScrollbackError = ScrollbackError(maxLines: int)

  /** The constructor refuses a live buffer of no lines. */
  method NewScrollback(maxLines: int, sink: Sink) returns (buffer: Result<ScrollbackBuffer, ScrollbackError>)
    ensures buffer.Err? <==> maxLines < 1
    ensures buffer.Ok? ==> fresh(buffer.value) && buffer.value.maxLines == maxLines
                           && buffer.value.Content() == State([], sink, 0)
  {
    if maxLines < 1 {
      return Err(ScrollbackError(maxLines));
    }
    var created := new ScrollbackBuffer(maxLines, sink);
    buffer := Ok(created);
  }
}
