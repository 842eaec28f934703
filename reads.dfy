/**
 * What `reader.read()` delivers to `processStream` (public/main.js), taken as a
 * given sequence of outcomes: a decoded chunk of text, the end of the stream,
 * or a rejected read. The stop button's `abortController.abort()` surfaces here
 * as a rejected read.
 */
module Reads {

  datatype ReadOutcome =
    | Chunk(text: string)              // `{ done: false, value }`, already decoded
    | Done                             // `{ done: true }`
    | ReadFailed(userStopped: bool)    // the read promise rejected (AbortError when stopped)

  /** The reader reports the end or a failure at some point. */
  predicate Ends(outcomes: seq<ReadOutcome>)
  {
    |outcomes| > 0 && (!outcomes[0].Chunk? || Ends(outcomes[1..]))
  }

  predicate AllChunks(rs: seq<ReadOutcome>)
  {
    forall i :: 0 <= i < |rs| ==> rs[i].Chunk?
  }

  /** Index of the read that ends the loop: the first one that is not a chunk. */
  function FirstEnd(outcomes: seq<ReadOutcome>): (k: nat)
    requires Ends(outcomes)
    ensures k < |outcomes| && !outcomes[k].Chunk?
    ensures AllChunks(outcomes[..k])
  {
    if !outcomes[0].Chunk? then 0
    else
      var k := 1 + FirstEnd(outcomes[1..]);
      assert outcomes[..k] == [outcomes[0]] + outcomes[1..][..k - 1];
      k
  }

  /** The texts of a run of chunks, in order. */
  function Texts(rs: seq<ReadOutcome>): (ts: seq<string>)
    requires AllChunks(rs)
    ensures |ts| == |rs|
    ensures forall i :: 0 <= i < |rs| ==> ts[i] == rs[i].text
  {
    if rs == [] then [] else Texts(rs[..|rs| - 1]) + [rs[|rs| - 1].text]
  }

  /** One more chunk adds its text at the end. */
  lemma TextsStep(outcomes: seq<ReadOutcome>, i: nat)
    requires i < |outcomes| && AllChunks(outcomes[..i]) && outcomes[i].Chunk?
    ensures AllChunks(outcomes[..i + 1])
    ensures Texts(outcomes[..i + 1]) == Texts(outcomes[..i]) + [outcomes[i].text]
  {
    assert outcomes[..i + 1][..i] == outcomes[..i];
  }

  /** The loop stops at the first outcome that is not a chunk. */
  lemma StopsAtFirstEnd(outcomes: seq<ReadOutcome>, i: nat)
    requires Ends(outcomes) && i <= FirstEnd(outcomes)
    requires AllChunks(outcomes[..i]) && !outcomes[i].Chunk?
    ensures i == FirstEnd(outcomes)
    ensures Texts(outcomes[..i]) == Received(outcomes)
    ensures outcomes[i].ReadFailed? == Failed(outcomes)
  {
  }

  /** The chunks the loop processes: everything before the first end or failure. */
  function Received(outcomes: seq<ReadOutcome>): seq<string>
    requires Ends(outcomes)
  {
    Texts(outcomes[..FirstEnd(outcomes)])
  }

  /** The loop ends in the catch block, not by `done`. */
  predicate Failed(outcomes: seq<ReadOutcome>)
    requires Ends(outcomes)
  {
    outcomes[FirstEnd(outcomes)].ReadFailed?
  }

  /** The chunks `ts`, read one after the other. */
  function Chunks(ts: seq<string>): (rs: seq<ReadOutcome>)
    ensures |rs| == |ts| && AllChunks(rs)
    ensures forall i :: 0 <= i < |ts| ==> rs[i] == Chunk(ts[i])
  {
    if ts == [] then [] else [Chunk(ts[0])] + Chunks(ts[1..])
  }

  /**
   * Whatever the chunks hold, they are all processed, up to the end or failure
   * that follows them; outcomes after that are never read.
   */
  lemma {:induction false} ReceivedAllBeforeEnd(ts: seq<string>, last: ReadOutcome, rest: seq<ReadOutcome>)
    requires !last.Chunk?
    ensures Ends(Chunks(ts) + [last] + rest)
    ensures Received(Chunks(ts) + [last] + rest) == ts
    ensures Failed(Chunks(ts) + [last] + rest) == last.ReadFailed?
  {
    var outcomes := Chunks(ts) + [last] + rest;
    EndsAt(outcomes, |ts|);
    var k := FirstEnd(outcomes);
    assert outcomes[|ts|] == last;
    assert k == |ts| by {
      assert AllChunks(outcomes[..|ts|]);
      assert !outcomes[|ts|].Chunk?;
    }
    assert outcomes[..k] == Chunks(ts);
  }

  /** A sequence with a non-chunk outcome at `k` ends. */
  lemma {:induction false} EndsAt(outcomes: seq<ReadOutcome>, k: nat)
    requires k < |outcomes| && !outcomes[k].Chunk?
    ensures Ends(outcomes)
  {
    if k > 0 {
      assert outcomes[1..][k - 1] == outcomes[k];
      EndsAt(outcomes[1..], k - 1);
    }
  }
}
