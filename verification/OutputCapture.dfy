/** Draining one output stream into a bounded buffer (worker/src/supervisor.rs). */
module OutputCapture {
  import opened Prelude
  import opened WorkerModel

  /** One call of the reader: bytes read, where none means the end of the stream, or an error. */
  datatype ReadResult = Read(bytes: seq<bv8>) | ReadError(error: IoError)

  datatype CaptureOutcome = CaptureOutcome(output: BoundedOutput, failure: Option<Failure>)

  /** The stream ends at an empty read, at an error, or with the script. */
  predicate Continues(r: ReadResult) {
    r.Read? && r.bytes != []
  }

  /** The bytes that arrive before the stream ends. */
  function Arrived(script: seq<ReadResult>): seq<bv8> {
    if script == [] || !Continues(script[0]) then [] else script[0].bytes + Arrived(script[1..])
  }

  /** The error that ends the stream, if one does. */
  function EndingError(script: seq<ReadResult>): Option<IoError> {
    if script == [] then None
    else if Continues(script[0]) then EndingError(script[1..])
    else if script[0].ReadError? then Some(script[0].error)
    else None
  }

  function FailureOf(stream: Stream, error: Option<IoError>): Option<Failure> {
    if error.None? then None else Some(OutputCaptureFailure(stream, Some(error.value.kind), error.value.message))
  }

  /** The first `limit` bytes that arrive are kept, and the saturating total says whether more did. */
  function Captured(script: seq<ReadResult>, stream: Stream, limit: U64): CaptureOutcome {
    var bytes := Arrived(script);
    var total: U64 := Min(|bytes|, U64_MAX);
    CaptureOutcome(BoundedOutput(bytes[..Min(|bytes|, limit)], total, limit, total > limit),
                   FailureOf(stream, EndingError(script)))
  }

  method CaptureOutput(script: seq<ReadResult>, stream: Stream, limit: U64) returns (r: CaptureOutcome)
    ensures r == Captured(script, stream, limit)
  {
    var captured: seq<bv8> := [];
    var total: U64 := 0;
    var i := 0;
    ghost var seen: seq<bv8> := [];
    while i < |script|
      invariant 0 <= i <= |script|
      invariant Arrived(script) == seen + Arrived(script[i..])
      invariant EndingError(script) == EndingError(script[i..])
      invariant captured == seen[..Min(|seen|, limit)] && total == Min(|seen|, U64_MAX)
    {
      match script[i] {
        case ReadError(error) =>
          assert Arrived(script[i..]) == [];
          return CaptureOutcome(BoundedOutput(captured, total, limit, total > limit),
                                Some(OutputCaptureFailure(stream, Some(error.kind), error.message)));
        case Read(bytes) =>
          if bytes == [] {
            assert Arrived(script[i..]) == [];
            return CaptureOutcome(BoundedOutput(captured, total, limit, total > limit), None);
          }
          assert script[i..][1..] == script[i + 1..];
          total := Min(total + |bytes|, U64_MAX);
          var remaining := limit - |captured|;
          var retained := Min(|bytes|, remaining);
          TakeMore(seen, bytes, limit);
          captured := captured + bytes[..retained];
          seen := seen + bytes;
      }
      i := i + 1;
    }
    assert script[i..] == [];
    return CaptureOutcome(BoundedOutput(captured, total, limit, total > limit), None);
  }

  lemma TakeMore(seen: seq<bv8>, bytes: seq<bv8>, limit: nat)
    ensures var kept := seen[..Min(|seen|, limit)];
            kept + bytes[..Min(|bytes|, limit - |kept|)] == (seen + bytes)[..Min(|seen + bytes|, limit)]
  {
  }

  /** Bytes arrive in the order read, until the first read that ends the stream; what would follow is never read. */
  lemma {:induction false} ArrivedInOrder(before: seq<ReadResult>, more: seq<ReadResult>)
    requires forall i :: 0 <= i < |before| ==> Continues(before[i])
    ensures Arrived(before + more) == Arrived(before) + Arrived(more)
    ensures more != [] && !Continues(more[0]) ==> Arrived(before + more) == Arrived(before)
    ensures more != [] && Continues(more[0]) ==> Arrived(before + more[..1]) == Arrived(before) + more[0].bytes
    ensures EndingError(before + more) == EndingError(more)
    ensures more != [] && more[0].ReadError? ==> EndingError(more) == Some(more[0].error)
    ensures more == [] || more[0] == Read([]) ==> EndingError(more).None?
    decreases |before|
  {
    if before == [] {
      assert before + more == more && before + more[..Min(1, |more|)] == more[..Min(1, |more|)];
      if more != [] && Continues(more[0]) { assert more[..1][1..] == []; }
    } else {
      assert (before + more)[1..] == before[1..] + more;
      ArrivedInOrder(before[1..], more);
      if more != [] { assert (before + more[..1])[1..] == before[1..] + more[..1]; }
    }
  }

  /** How the bytes are cut into reads does not matter: the same bytes and the same end give the same outcome. */
  lemma {:induction false} ChunkingIrrelevant(script: seq<ReadResult>, bytes: seq<bv8>, stream: Stream, limit: U64)
    requires Arrived(script) == bytes
    ensures var one := (if bytes == [] then [] else [Read(bytes)])
                     + (if EndingError(script).Some? then [ReadError(EndingError(script).value)] else []);
            Captured(script, stream, limit) == Captured(one, stream, limit)
  {
    var tail: seq<ReadResult> := if EndingError(script).Some? then [ReadError(EndingError(script).value)] else [];
    assert Arrived(tail) == [] && EndingError(tail) == EndingError(script);
    if bytes != [] {
      assert ([Read(bytes)] + tail)[1..] == tail;
    } else {
      assert [] + tail == tail;
    }
  }

  /**
   The kept bytes are the first min(total, limit) of the stream, and truncation is reported exactly
   when more arrived; only a limit of 2^64 - 1 cannot tell, because the total saturates there.
   */
  lemma TruncatedExactly(script: seq<ReadResult>, stream: Stream, limit: U64)
    ensures var r := Captured(script, stream, limit).output;
            && |r.captured| == Min(|Arrived(script)|, limit) && r.captured <= Arrived(script)
            && (r.truncated <==> |Arrived(script)| > limit && limit != U64_MAX)
            && (r.truncated <==> r.total > |r.captured|)
            && |r.captured| <= r.total
  {
  }

  /** Such a stream: one byte more than 2^64 - 1, read at that limit, loses the byte and is not reported truncated. */
  lemma MaximalLimitHidesTruncation(stream: Stream)
    ensures var script := [Read(seq(U64_MAX + 1, _ => 0))];
            var r := Captured(script, stream, U64_MAX).output;
            |Arrived(script)| == U64_MAX + 1 && |r.captured| == U64_MAX && !r.truncated
  {
    var script: seq<ReadResult> := [Read(seq(U64_MAX + 1, _ => 0))];
    assert script[1..] == [];
    assert Arrived(script) == script[0].bytes + [];
    TruncatedExactly(script, stream, U64_MAX);
  }
}
