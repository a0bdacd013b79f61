/**
 The run artifact store (observability/artifacts.py): a transcript that is
 redacted on the way in and rotated at a size cap. The file holds its entries;
 writing JSON and reading it back is taken to be the identity.
 */
module Artifacts {
  import R = Redact

  /** A JSON value; `shown` is the text that `str` gives a value that is no string. */
  datatype Value =
    | Text(text: string)
    | Scalar(shown: string)
    | List(items: seq<Value>, shown: string)
    | Object(fields: seq<(string, Value)>, shown: string)

  type Entry = map<string, Value>

  const MESSAGE := "message"

  function Shown(v: Value): string {
    if v.Text? then v.text else v.shown
  }

  function MessageOf(e: Entry): string {
    if MESSAGE in e then Shown(e[MESSAGE]) else ""
  }

  function RedactValue(v: Value): Value {
    if v.Text? then Text(R.RedactSpec(v.text)) else v
  }

  /** The message as redacted text, and then every value that is a string redacted, the message once more. */
  function RedactEntry(e: Entry): Entry {
    var named := e[MESSAGE := Text(R.RedactSpec(MessageOf(e)))];
    map k | k in named :: RedactValue(named[k])
  }

  /** No string inside the value holds a secret. */
  ghost predicate IsCleanValue(v: Value) {
    match v
    case Text(text) => R.AllClean(text)
    case Scalar(_) => true
    case List(items, _) => forall i :: 0 <= i < |items| ==> IsCleanValue(items[i])
    case Object(fields, _) => forall i :: 0 <= i < |fields| ==> R.AllClean(fields[i].0) && IsCleanValue(fields[i].1)
  }

  /** No string anywhere in the entry holds a secret. */
  ghost predicate IsCleanEntry(e: Entry) {
    forall k :: k in e ==> R.AllClean(k) && IsCleanValue(e[k])
  }

  /** What redaction leaves alone holds no secret: the keys, and the values that are no strings, but for the message. */
  ghost predicate IsHarmless(e: Entry) {
    forall k :: k in e ==> R.AllClean(k) && (k != MESSAGE && !e[k].Text? ==> IsCleanValue(e[k]))
  }

  /** Redaction changes the strings directly in the entry, and nothing inside a list or an object. */
  lemma RedactEntryFacts(e: Entry)
    ensures RedactEntry(e).Keys == e.Keys + {MESSAGE}
    ensures RedactEntry(e)[MESSAGE] == Text(R.RedactSpec(MessageOf(e)))
    ensures forall k :: k in e && k != MESSAGE ==> RedactEntry(e)[k] == RedactValue(e[k])
  {
    R.RedactIsIdempotent(MessageOf(e));
  }

  /** The stored message is the redacted text of the message, whatever its type; without one it is empty. */
  lemma StoredMessage(e: Entry)
    ensures "message" in RedactEntry(e)
    ensures "message" !in e ==> RedactEntry(e)["message"] == Text("")
    ensures "message" in e ==>
              RedactEntry(e)["message"] ==
              Text(R.RedactSpec(match e["message"] case Text(text) => text case other => other.shown))
  {
    RedactEntryFacts(e);
    R.PassesInOrder("");
  }

  /** Every other direct string is stored redacted; a value that is no string is stored as it is. */
  lemma StoredValue(e: Entry, k: string)
    requires k in e && k != "message"
    ensures k in RedactEntry(e)
    ensures RedactEntry(e)[k] == match e[k] case Text(text) => Text(R.RedactSpec(text)) case other => other
  {
    RedactEntryFacts(e);
  }

  lemma MessageIsClean()
    ensures R.AllClean(MESSAGE)
  {
    R.PatternsAreSound();
    forall p, i, j {:trigger R.FullMatch(p, MESSAGE[i..j])} | p in R.PATTERNS && 0 <= i <= j <= |MESSAGE|
      ensures !R.FullMatch(p, MESSAGE[i..j])
    {
      R.StarOrShortIsNoMatch(p, MESSAGE[i..j], 0);
    }
  }

  lemma StoredValueIsCleanIff(e: Entry, k: string)
    requires k in RedactEntry(e)
    ensures IsCleanValue(RedactEntry(e)[k]) <==> k == MESSAGE || e[k].Text? || IsCleanValue(e[k])
  {
    RedactEntryFacts(e);
    R.RedactedIsClean(if k == MESSAGE then MessageOf(e) else Shown(e[k]));
  }

  /** An entry is stored without a secret exactly when its keys, and its values that are no strings, hold none. */
  lemma StoredEntryIsCleanIff(e: Entry)
    ensures IsCleanEntry(RedactEntry(e)) <==> IsHarmless(e)
  {
    RedactEntryFacts(e);
    MessageIsClean();
    forall k | k in RedactEntry(e)
      ensures IsCleanValue(RedactEntry(e)[k]) <==> k == MESSAGE || e[k].Text? || IsCleanValue(e[k])
    {
      StoredValueIsCleanIff(e, k);
    }
  }

  /** Redacting a stored entry again changes nothing. */
  lemma RedactTwice(e: Entry)
    ensures RedactEntry(RedactEntry(e)) == RedactEntry(e)
  {
    var once := RedactEntry(e);
    RedactEntryFacts(e);
    RedactEntryFacts(once);
    forall k | k in once ensures RedactEntry(once)[k] == once[k] {
      if once[k].Text? {
        R.RedactIsIdempotent(if k == MESSAGE then MessageOf(e) else e[k].text);
      }
    }
  }

  /** A secret in a list is stored as it is. */
  lemma NestedSecretIsStored()
    ensures var secret := "sk-aaaaaaaaaaaaaaaaaaaa";
            var e: Entry := map["prompts" := List([Text(secret)], "")];
            && RedactEntry(e)["prompts"] == List([Text(secret)], "")
            && R.RedactSpec(secret) != secret
            && !IsCleanEntry(RedactEntry(e))
  {
    var secret := "sk-aaaaaaaaaaaaaaaaaaaa";
    var e: Entry := map["prompts" := List([Text(secret)], "")];
    RedactEntryFacts(e);
    assert secret[0..|secret|] == secret;
    assert R.GapMatch(R.GENERIC, secret[0..|secret|], 0);
    assert R.GENERIC in R.PATTERNS && R.FullMatch(R.GENERIC, secret[0..|secret|]);
    assert !R.Clean(R.GENERIC, secret);
    R.RedactFixesExactlyClean(secret);
    var stored := RedactEntry(e)["prompts"];
    assert !IsCleanValue(stored.items[0]);
    assert !IsCleanValue(stored);
  }

  // --- rotation ---------------------------------------------------------------

  /** The bytes of the entries; `size` is the length of an entry's JSON. */
  function Size(size: Entry -> nat, entries: seq<Entry>): nat {
    if entries == [] then 0 else size(entries[0]) + Size(size, entries[1..])
  }

  /** Drops the oldest until the rest is within the cap, but never the newest. */
  function Rotated(size: Entry -> nat, cap: int, entries: seq<Entry>): seq<Entry> {
    if |entries| <= 1 || Size(size, entries) <= cap then entries else Rotated(size, cap, entries[1..])
  }

  function Newest(entries: seq<Entry>, n: nat): seq<Entry>
    requires n <= |entries|
  {
    entries[|entries| - n..]
  }

  /** `kept` is the longest suffix of `history` within the cap, or just its newest entry. */
  ghost predicate IsLongestSuffix(size: Entry -> nat, cap: int, history: seq<Entry>, kept: seq<Entry>) {
    && |kept| <= |history| && kept == Newest(history, |kept|)
    && (history != [] ==> kept != [])
    && (|kept| > 1 ==> Size(size, kept) <= cap)
    && forall n :: |kept| < n <= |history| ==> Size(size, Newest(history, n)) > cap
  }

  lemma {:induction false} RotatedIsLongest(size: Entry -> nat, cap: int, entries: seq<Entry>)
    ensures IsLongestSuffix(size, cap, entries, Rotated(size, cap, entries))
    decreases |entries|
  {
    if |entries| > 1 && Size(size, entries) > cap {
      var kept := Rotated(size, cap, entries[1..]);
      RotatedIsLongest(size, cap, entries[1..]);
      assert kept == Newest(entries, |kept|);
      forall n | |kept| < n <= |entries| ensures Size(size, Newest(entries, n)) > cap {
        if n < |entries| {
          assert Newest(entries, n) == Newest(entries[1..], n);
        } else {
          assert Newest(entries, n) == entries;
        }
      }
    }
  }

  lemma {:induction false} SizeGrows(size: Entry -> nat, entries: seq<Entry>, e: Entry)
    ensures Size(size, entries + [e]) == Size(size, entries) + size(e)
    decreases |entries|
  {
    if entries == [] {
      assert [e][1..] == [];
    } else {
      assert (entries + [e])[1..] == entries[1..] + [e];
      SizeGrows(size, entries[1..], e);
    }
  }

  /** Rotating after every append is rotating once: what was dropped would have been dropped anyway. */
  lemma {:induction false} RotationIsIncremental(size: Entry -> nat, cap: int, history: seq<Entry>, e: Entry)
    ensures Rotated(size, cap, Rotated(size, cap, history) + [e]) == Rotated(size, cap, history + [e])
    decreases |history|
  {
    if |history| > 1 && Size(size, history) > cap {
      RotationIsIncremental(size, cap, history[1..], e);
      SizeGrows(size, history, e);
      assert (history + [e])[1..] == history[1..] + [e];
    }
  }

  function RedactAll(history: seq<Entry>): (all: seq<Entry>)
    ensures |all| == |history|
  {
    if history == [] then [] else RedactAll(history[..|history| - 1]) + [RedactEntry(history[|history| - 1])]
  }

  function Appended(size: Entry -> nat, cap: int, entries: seq<Entry>, e: Entry): seq<Entry> {
    Rotated(size, cap, entries + [RedactEntry(e)])
  }

  /** The store after a list of appends to an empty one. */
  function Stored(size: Entry -> nat, cap: int, history: seq<Entry>): seq<Entry> {
    if history == [] then []
    else Appended(size, cap, Stored(size, cap, history[..|history| - 1]), history[|history| - 1])
  }

  lemma {:induction false} StoredIsRotatedHistory(size: Entry -> nat, cap: int, history: seq<Entry>)
    ensures Stored(size, cap, history) == Rotated(size, cap, RedactAll(history))
  {
    if history != [] {
      var front, last := history[..|history| - 1], history[|history| - 1];
      StoredIsRotatedHistory(size, cap, front);
      RotationIsIncremental(size, cap, RedactAll(front), RedactEntry(last));
    }
  }

  lemma {:induction false} RedactedAt(history: seq<Entry>, i: nat)
    requires i < |history|
    ensures RedactAll(history)[i] == RedactEntry(history[i])
  {
    if i < |history| - 1 {
      RedactedAt(history[..|history| - 1], i);
    }
  }

  /** After any appends: the longest suffix of the whole redacted history within the cap, or just its newest entry. */
  lemma StoreIsLongestSuffix(size: Entry -> nat, cap: int, history: seq<Entry>)
    ensures IsLongestSuffix(size, cap, RedactAll(history), Stored(size, cap, history))
  {
    StoredIsRotatedHistory(size, cap, history);
    RotatedIsLongest(size, cap, RedactAll(history));
  }

  lemma NewestAt(entries: seq<Entry>, n: nat, i: nat)
    requires i < n <= |entries|
    ensures Newest(entries, n)[i] == entries[|entries| - n + i]
  {
  }

  lemma StoredAt(size: Entry -> nat, cap: int, history: seq<Entry>, i: nat)
    requires i < |Stored(size, cap, history)|
    ensures |Stored(size, cap, history)| <= |history|
    ensures Stored(size, cap, history)[i] == RedactEntry(Newest(history, |Stored(size, cap, history)|)[i])
  {
    var n := |Stored(size, cap, history)|;
    StoreIsLongestSuffix(size, cap, history);
    NewestAt(RedactAll(history), n, i);
    NewestAt(history, n, i);
    RedactedAt(history, |history| - n + i);
  }

  /** The store holds no secret exactly when redaction reaches everything in the entries it kept. */
  lemma StoreIsCleanIff(size: Entry -> nat, cap: int, history: seq<Entry>)
    ensures var kept := Stored(size, cap, history);
            && |kept| <= |history|
            && ((forall i :: 0 <= i < |kept| ==> IsCleanEntry(kept[i])) <==>
                (forall i :: 0 <= i < |kept| ==> IsHarmless(Newest(history, |kept|)[i])))
  {
    var kept := Stored(size, cap, history);
    StoreIsLongestSuffix(size, cap, history);
    forall i | 0 <= i < |kept| ensures IsCleanEntry(kept[i]) <==> IsHarmless(Newest(history, |kept|)[i]) {
      StoredAt(size, cap, history, i);
      StoredEntryIsCleanIff(Newest(history, |kept|)[i]);
    }
  }

  method RedactStrings(input: Entry) returns (entry: Entry)
    ensures entry == map k | k in input :: RedactValue(input[k])
  {
    entry := input;
    var todo := input.Keys;
    while todo != {}
      invariant todo <= input.Keys && entry.Keys == input.Keys
      invariant forall k :: k in input ==> entry[k] == if k in todo then input[k] else RedactValue(input[k])
      decreases |todo|
    {
      var k :| k in todo;
      if entry[k].Text? {
        var clean := R.Redact(entry[k].text);
        entry := entry[k := Text(clean)];
      }
      todo := todo - {k};
    }
  }

  class RunArtifactStore {
    const cap: int
    const size: Entry -> nat
    var file: seq<Entry>

    constructor (cap: int, size: Entry -> nat, existing: seq<Entry>)
      ensures this.cap == cap && this.size == size && file == existing
    {
      this.cap := cap;
      this.size := size;
      file := existing;
    }

    method Append(input: Entry)
      modifies this
      ensures file == Appended(size, cap, old(file), input)
    {
      var entries := file;
      var message := R.Redact(MessageOf(input));
      var entry := RedactStrings(input[MESSAGE := Text(message)]);
      entries := entries + [entry];
      while |entries| > 1
        invariant Rotated(size, cap, entries) == Rotated(size, cap, old(file) + [entry])
        decreases |entries|
      {
        if Size(size, entries) <= cap {
          break;
        }
        entries := entries[1..];
      }
      file := entries;
    }
  }
}
