/** The event vocabulary and the frames that carry it (contracts/enums.py, contracts/events.py). */
module Events {
  datatype EventType =
    | FileChange | GitStatusUpdate | AgentTokenStream | TestProgress | ModelConfigChange
    | InterruptRequest | InterruptAck | MetricsUpdate | Snapshot

  /** A frame; `body` stands for the payload. */
  datatype Envelope = Envelope(kind: EventType, body: nat)

  predicate IsToken(e: Envelope) {
    e.kind == AgentTokenStream
  }

  function Controls(s: seq<Envelope>): seq<Envelope> {
    if s == [] then [] else Controls(s[..|s| - 1]) + if IsToken(s[|s| - 1]) then [] else [s[|s| - 1]]
  }

  lemma {:induction false} ControlsConcat(a: seq<Envelope>, b: seq<Envelope>)
    ensures Controls(a + b) == Controls(a) + Controls(b)
    decreases |b|
  {
    if b == [] {
      assert a + b == a;
    } else {
      assert (a + b)[..|a + b| - 1] == a + b[..|b| - 1];
      ControlsConcat(a, b[..|b| - 1]);
    }
  }
}
