/**
 The supervisor side of one proxied request, `Rack::StreamingProxy::Response`:
 it reads what the worker writes onto the pipe, one value per read, keeps the
 status, the body-permitted answer and the headers, and hands the body to
 Rack chunk by chunk, waiting for the worker to exit along the way.

 The pipe is the sequence of values not yet read (`gets` gives nil once it is
 empty), the worker's exit is the number of times `wait` was called, and
 what `each` yields is appended to `output`. The block Rack hands to `each` is
 a `Consumer`: it takes every value, or breaks out of `each` when it is
 handed a given one.
 */
module StreamingResponse {
  import opened RubyText
  import opened Messages
  import opened ChunkFraming

  /** The exceptions that leave the reader: its own two, and Ruby's `NoMethodError` when a value read has the wrong type. */
  datatype Exception = ConnectionError | HttpServerError | NoMethodError

  /** How a call ends: it returned, the block broke out of it, or it raised. */
  datatype Outcome = Returned | Broken | Raised(error: Exception)

  /** The block given to `each`: takes every value, or breaks when handed value number `n` (counting from 0). */
  datatype Consumer = Drain | BreakOn(n: nat)

  /** The consumer after it has taken one more value without breaking. */
  function Took(c: Consumer): Consumer
    requires c != BreakOn(0)
  {
    match c
    case Drain => Drain
    case BreakOn(n) => BreakOn(n - 1)
  }

  /** What one call of `each` does: the values it yields, the pipe it leaves, the waits it makes and how it ends. */
  datatype EachRun = EachRun(yielded: seq<Msg>, rest: seq<Msg>, waits: nat, outcome: Outcome)

  /** The run `r`, after `ys` were yielded first. */
  function After(ys: seq<Msg>, r: EachRun): EachRun {
    r.(yielded := ys + r.yielded)
  }

  /** What the loop of `each` does with one value read: leave the loop, raise, skip it, or yield. */
  datatype Turn = Leave | Raise | Skip | Yield(value: Msg)

  /**
   A falsy value or `:done` leaves the loop. Non-chunked, every other value is
   yielded as it is. Chunked, a value that is not a string has no `bytesize`
   and raises, an empty string is skipped, and any other is yielded framed.
   */
  function TurnOf(chunked: bool, m: Msg): Turn {
    if Ends(m) then Leave
    else if chunked && !m.Chunk? then Raise
    else if chunked && |m.data| == 0 then Skip
    else Yield(if chunked then Chunk(Frame(m.data)) else m)
  }

  /**
   The body loop of `each` and what follows it, on the pipe `q`: read and act
   on each value until the loop is left; then wait for the worker and, when
   chunked, yield the terminating frame.
   */
  function BodyLoop(chunked: bool, q: seq<Msg>, consumer: Consumer): EachRun
    decreases |q|
  {
    match TurnOf(chunked, Read(q, 0))
    case Leave =>
      if chunked then EachRun([Chunk(LastFrame)], Drop(q, 1), 1, if consumer == BreakOn(0) then Broken else Returned)
      else EachRun([], Drop(q, 1), 1, Returned)
    case Raise => EachRun([], Drop(q, 1), 0, Raised(NoMethodError))
    case Skip => BodyLoop(chunked, Drop(q, 1), consumer)
    case Yield(y) =>
      if consumer == BreakOn(0) then EachRun([y], Drop(q, 1), 0, Broken)
      else After([y], BodyLoop(chunked, Drop(q, 1), Took(consumer)))
  }

  /**
   `each` as a whole: nothing happens unless the body was permitted; with nil
   headers the chunked test raises before anything is read.
   */
  function EachSpec(bodyPermitted: Msg, headers: Option<seq<Field>>, q: seq<Msg>, consumer: Consumer): EachRun {
    if !Truthy(bodyPermitted) then EachRun([], q, 0, Returned)
    else if headers.None? then EachRun([], q, 0, Raised(NoMethodError))
    else BodyLoop(IsChunked(headers.value), q, consumer)
  }

  /** Proof step, not a property of the reader: regroups appends for the loop invariant of `Stream`. */
  lemma AppendTwice(a: seq<Msg>, b: seq<Msg>, c: seq<Msg>)
    ensures (a + b) + c == a + (b + c)
  {
  }

  /** A turn of the loop that yields `y` and goes on. */
  lemma BodyLoopYields(chunked: bool, q: seq<Msg>, consumer: Consumer, ys: seq<Msg>, y: Msg)
    requires TurnOf(chunked, Read(q, 0)) == Yield(y) && consumer != BreakOn(0)
    ensures After(ys, BodyLoop(chunked, q, consumer)) == After(ys + [y], BodyLoop(chunked, Drop(q, 1), Took(consumer)))
  {
  }

  /** A turn of the loop that leaves it or raises ends the run. */
  lemma BodyLoopStops(chunked: bool, q: seq<Msg>, consumer: Consumer, ys: seq<Msg>)
    requires TurnOf(chunked, Read(q, 0)).Leave? || TurnOf(chunked, Read(q, 0)).Raise?
    ensures var r := After(ys, BodyLoop(chunked, q, consumer));
      && r.rest == Drop(q, 1)
      && (TurnOf(chunked, Read(q, 0)).Raise? ==> r == EachRun(ys, Drop(q, 1), 0, Raised(NoMethodError)))
      && (TurnOf(chunked, Read(q, 0)).Leave? ==>
            && r.yielded == ys + (if chunked then [Chunk(LastFrame)] else []) && r.waits == 1
            && r.outcome == if chunked && consumer == BreakOn(0) then Broken else Returned)
  {
  }

  /** The data of the non-empty chunks among `ms`, in order. */
  function NonEmptyPayloads(ms: seq<Msg>): seq<seq<byte>>
    decreases |ms|
  {
    if ms == [] then []
    else if ms[0].Chunk? && |ms[0].data| > 0 then [ms[0].data] + NonEmptyPayloads(ms[1..])
    else NonEmptyPayloads(ms[1..])
  }

  /** Every payload listed by `NonEmptyPayloads` is non-empty. */
  lemma {:induction false} PayloadsAreNonEmpty(ms: seq<Msg>)
    ensures forall i | 0 <= i < |NonEmptyPayloads(ms)| :: |NonEmptyPayloads(ms)[i]| > 0
    decreases |ms|
  {
    if ms != [] {
      PayloadsAreNonEmpty(ms[1..]);
    }
  }

  /** Strings as the values `each` yields. */
  function Chunks(parts: seq<seq<byte>>): seq<Msg> {
    seq(|parts|, i requires 0 <= i < |parts| => Chunk(parts[i]))
  }

  /** The bytes a Rack server writes for the yielded values, one after the other. */
  function Written(out: seq<Msg>): seq<byte>
    decreases |out|
  {
    if out == [] then [] else Text(out[0]) + Written(out[1..])
  }

  lemma {:induction false} WrittenChunks(parts: seq<seq<byte>>)
    ensures Written(Chunks(parts)) == Concat(parts)
    decreases |parts|
  {
    if parts != [] {
      assert Chunks(parts)[1..] == Chunks(parts[1..]);
      WrittenChunks(parts[1..]);
    }
  }

  /**
   Non-chunked body, consumer takes everything: the yielded values are the
   reads before the first falsy value or `:done`, in order and including
   empty strings; the read that ends the loop is the last one; the worker is
   waited on once.
   */
  lemma {:induction false} NonChunkedBody(q: seq<Msg>)
    ensures BodyLoop(false, q, Drain) == EachRun(q[..EndIndex(q)], Drop(q, EndIndex(q) + 1), 1, Returned)
    decreases |q|
  {
    if !Ends(Read(q, 0)) {
      NonChunkedBody(q[1..]);
      assert [q[0]] + q[1..][..EndIndex(q[1..])] == q[..EndIndex(q)];
    }
  }

  /**
   Chunked body, consumer takes everything, every read before the end a
   string: one frame per non-empty chunk in order, the terminating frame
   last, one wait, and nothing read past the end.
   */
  lemma {:induction false} ChunkedBody(q: seq<Msg>)
    requires forall i | 0 <= i < EndIndex(q) :: q[i].Chunk?
    ensures BodyLoop(true, q, Drain) ==
      EachRun(Chunks(FramedBody(NonEmptyPayloads(q[..EndIndex(q)]))), Drop(q, EndIndex(q) + 1), 1, Returned)
    decreases |q|
  {
    var k := EndIndex(q);
    if Ends(Read(q, 0)) {
      assert q[..k] == [];
      assert Chunks(FramedBody([])) == [Chunk(LastFrame)];
    } else {
      var d := q[0].data;
      var tail := q[1..];
      var k' := EndIndex(tail);
      var ps := NonEmptyPayloads(tail[..k']);
      var rest := EachRun(Chunks(FramedBody(ps)), Drop(q, k + 1), 1, Returned);
      assert BodyLoop(true, tail, Drain) == rest by {
        forall i | 0 <= i < k'
          ensures tail[i].Chunk?
        {
          assert tail[i] == q[i + 1];
        }
        ChunkedBody(tail);
        ReadAfterDrop(q, 1, k' + 1);
      }
      assert NonEmptyPayloads(q[..k]) == (if |d| > 0 then [d] else []) + ps by {
        assert q[..k] == [q[0]] + tail[..k'];
        PayloadsCons(q[0], tail[..k']);
      }
      BodyLoopTakesChunk(q);
      if |d| > 0 {
        FramedChunksCons(d, ps);
        assert BodyLoop(true, q, Drain) == After([Chunk(Frame(d))], rest);
        assert Chunks(FramedBody(NonEmptyPayloads(q[..k]))) == [Chunk(Frame(d))] + rest.yielded;
      } else {
        assert BodyLoop(true, q, Drain) == rest;
        assert NonEmptyPayloads(q[..k]) == ps;
      }
    }
  }

  /** The loop of a chunked body, block taking everything, on a pipe that starts with a string. */
  lemma BodyLoopTakesChunk(q: seq<Msg>)
    requires q != [] && q[0].Chunk?
    ensures BodyLoop(true, q, Drain) ==
      if |q[0].data| == 0 then BodyLoop(true, q[1..], Drain)
      else After([Chunk(Frame(q[0].data))], BodyLoop(true, q[1..], Drain))
  {
  }

  /** The payloads of a value followed by more values. */
  lemma PayloadsCons(m: Msg, ms: seq<Msg>)
    ensures NonEmptyPayloads([m] + ms) ==
      (if m.Chunk? && |m.data| > 0 then [m.data] else []) + NonEmptyPayloads(ms)
  {
    assert ([m] + ms)[1..] == ms;
  }

  /** The framed values of a chunk followed by more chunks. */
  lemma FramedChunksCons(c: seq<byte>, cs: seq<seq<byte>>)
    ensures Chunks(FramedBody([c] + cs)) == [Chunk(Frame(c))] + Chunks(FramedBody(cs))
  {
    assert FramedBody([c] + cs) == [Frame(c)] + FramedBody(cs);
  }

  /**
   Chunked body, consumer takes everything, some read before the end not a
   string: `bytesize` raises on it and the worker is not waited on.
   */
  lemma {:induction false} ChunkedBodyRaises(q: seq<Msg>)
    requires exists i | 0 <= i < EndIndex(q) :: !q[i].Chunk?
    ensures BodyLoop(true, q, Drain).outcome == Raised(NoMethodError)
    ensures BodyLoop(true, q, Drain).waits == 0
    decreases |q|
  {
    if q[0].Chunk? {
      var i :| 0 <= i < EndIndex(q) && !q[i].Chunk?;
      assert q[1..][i - 1] == q[i];
      ChunkedBodyRaises(q[1..]);
    }
  }

  /**
   The chunked body as bytes: when every read before the end is a string,
   what Rack writes decodes to the non-empty chunks read, in order.
   */
  lemma ChunkedBodyDecodes(q: seq<Msg>)
    requires forall i | 0 <= i < EndIndex(q) :: q[i].Chunk?
    ensures DecodeFrames(Written(BodyLoop(true, q, Drain).yielded)) == Some(NonEmptyPayloads(q[..EndIndex(q)]))
  {
    var ps := NonEmptyPayloads(q[..EndIndex(q)]);
    ChunkedBody(q);
    WrittenChunks(FramedBody(ps));
    PayloadsAreNonEmpty(q[..EndIndex(q)]);
    DecodeFramedBody(ps);
  }

  /**
   The waits of the body loop: one when it returns, none when it raises, and
   when the block breaks out, one only if that was at the terminating frame
   of a chunked body, which is yielded after the wait.
   */
  lemma {:induction false} BodyLoopWaits(chunked: bool, q: seq<Msg>, consumer: Consumer)
    ensures var r := BodyLoop(chunked, q, consumer);
      && (r.outcome == Returned ==> r.waits == 1)
      && (chunked && r.outcome == Returned ==> |r.yielded| > 0 && r.yielded[|r.yielded| - 1] == Chunk(LastFrame))
      && (r.outcome.Raised? ==> r.waits == 0 && r.outcome == Raised(NoMethodError))
      && (r.outcome == Broken ==> r.waits <= 1 && |r.yielded| > 0)
      && (r.outcome == Broken && r.waits == 1 ==> chunked && r.yielded[|r.yielded| - 1] == Chunk(LastFrame))
    decreases |q|
  {
    var m := Read(q, 0);
    if !Ends(m) && !(chunked && !m.Chunk?) {
      if chunked && |m.data| == 0 {
        BodyLoopWaits(chunked, Drop(q, 1), consumer);
      } else if consumer != BreakOn(0) {
        BodyLoopWaits(chunked, Drop(q, 1), Took(consumer));
      }
    }
  }

  /**
   The number of values the loop itself yields when the block takes
   everything, leaving out the terminating frame of a chunked body.
   */
  ghost function LoopYields(chunked: bool, q: seq<Msg>): nat {
    var d := BodyLoop(chunked, q, Drain);
    BodyLoopWaits(chunked, q, Drain);
    if chunked && d.outcome == Returned then |d.yielded| - 1 else |d.yielded|
  }

  /**
   Abandoning the body inside the loop: a block that breaks when handed value
   `n`, with more than `n` values to come from the loop, has received the
   first `n + 1` of them, and the worker is not waited on (there is no
   `ensure` around the loop).
   */
  lemma {:induction false} AbandonInLoop(chunked: bool, q: seq<Msg>, n: nat)
    requires n < LoopYields(chunked, q)
    ensures var b := BodyLoop(chunked, q, BreakOn(n)); var d := BodyLoop(chunked, q, Drain);
      && |d.yielded| > n
      && b.yielded == d.yielded[..n + 1] && b.waits == 0 && b.outcome == Broken
    decreases |q|
  {
    var m := Read(q, 0);
    BodyLoopWaits(chunked, q, Drain);
    if Ends(m) || (chunked && !m.Chunk?) {
      assert false;
    } else if chunked && |m.data| == 0 {
      AbandonInLoop(chunked, Drop(q, 1), n);
    } else if n > 0 {
      var d' := BodyLoop(chunked, Drop(q, 1), Drain);
      assert LoopYields(chunked, Drop(q, 1)) == LoopYields(chunked, q) - 1;
      AbandonInLoop(chunked, Drop(q, 1), n - 1);
      assert BodyLoop(chunked, q, Drain).yielded[..n + 1] == [BodyLoop(chunked, q, Drain).yielded[0]] + d'.yielded[..n];
    }
  }

  /**
   A block that breaks no earlier than the end of the loop sees the same run
   as one that takes everything: the same values, the same reads and the same
   wait.
   */
  lemma {:induction false} AbandonAfterLoop(chunked: bool, q: seq<Msg>, n: nat)
    requires n >= LoopYields(chunked, q)
    ensures var b := BodyLoop(chunked, q, BreakOn(n)); var d := BodyLoop(chunked, q, Drain);
      b.yielded == d.yielded && b.rest == d.rest && b.waits == d.waits
    decreases |q|
  {
    var m := Read(q, 0);
    BodyLoopWaits(chunked, q, Drain);
    if !Ends(m) && !(chunked && !m.Chunk?) {
      if chunked && |m.data| == 0 {
        AbandonAfterLoop(chunked, Drop(q, 1), n);
      } else {
        assert LoopYields(chunked, Drop(q, 1)) == LoopYields(chunked, q) - 1;
        AbandonAfterLoop(chunked, Drop(q, 1), n - 1);
      }
    }
  }

  /** `Rack::StreamingProxy::Response`, over its pipe to one worker. */
  class Response {
    /** The values the worker wrote that have not been read yet. */
    var pipe: seq<Msg>
    /** How many times `@piper.wait` was called. */
    var waitCount: nat
    /** `@status`, `@body_permitted` and `@headers` (nil until `receive` sets them). */
    var status: Msg
    var bodyPermitted: Msg
    var headers: Option<seq<Field>>
    /** Every value `each` has yielded to its block. */
    var output: seq<Msg>

    /** `initialize(piper)`. */
    constructor (piper: seq<Msg>)
      ensures pipe == piper && waitCount == 0 && output == []
      ensures status == Nil && bodyPermitted == Nil && headers == None
    {
      pipe := piper;
      waitCount := 0;
      status, bodyPermitted, headers := Nil, Nil, None;
      output := [];
    }

    /** `read_from_remote`: the next value, or nil once the pipe is drained. */
    method ReadFromRemote() returns (m: Msg)
      modifies this`pipe
      ensures m == Read(old(pipe), 0) && pipe == Drop(old(pipe), 1)
    {
      if pipe == [] {
        m := Nil;
      } else {
        m := pipe[0];
        pipe := pipe[1..];
      }
    }

    /** `finish`: wait for the worker to exit. */
    method Finish()
      modifies this`waitCount
      ensures waitCount == old(waitCount) + 1
    {
      waitCount := waitCount + 1;
    }

    /**
     `receive`: read the status; on a falsy one wait and raise
     `ConnectionError`; on a 5xx one with `raiseOn5xx` set wait and raise
     `HttpServerError`; otherwise read the body-permitted answer and the
     headers, and wait at once only when no body is permitted. A third value
     that is not a hash makes `HeaderHash.new` raise before any wait.
     */
    method Receive(raiseOn5xx: bool) returns (outcome: Outcome)
      modifies this`pipe, this`waitCount, this`status, this`bodyPermitted, this`headers
      ensures output == old(output)
      ensures status == Read(old(pipe), 0)
      ensures !Truthy(status) ==>
        && outcome == Raised(ConnectionError) && pipe == Drop(old(pipe), 1)
        && waitCount == old(waitCount) + 1
        && bodyPermitted == old(bodyPermitted) && headers == old(headers)
      ensures Truthy(status) && raiseOn5xx && MatchesFiveXX(Text(status)) ==>
        && outcome == Raised(HttpServerError) && pipe == Drop(old(pipe), 1)
        && waitCount == old(waitCount) + 1
        && bodyPermitted == old(bodyPermitted) && headers == old(headers)
      ensures Truthy(status) && !(raiseOn5xx && MatchesFiveXX(Text(status))) ==>
        && pipe == Drop(old(pipe), 3) && bodyPermitted == Read(old(pipe), 1)
        && if Read(old(pipe), 2).Headers? then
             && outcome == Returned && headers == Some(Read(old(pipe), 2).fields)
             && waitCount == old(waitCount) + (if Truthy(bodyPermitted) then 0 else 1)
           else
             && outcome == Raised(NoMethodError) && headers == old(headers)
             && waitCount == old(waitCount)
    {
      ghost var q := pipe;
      status := ReadFromRemote();
      if Truthy(status) {
        if raiseOn5xx && MatchesFiveXX(Text(status)) {
          Finish();
          return Raised(HttpServerError);
        } else {
          ReadAfterDrop(q, 1, 0);
          bodyPermitted := ReadFromRemote();
          ReadAfterDrop(q, 1, 1);
          ReadAfterDrop(q, 2, 0);
          var h := ReadFromRemote();
          ReadAfterDrop(q, 2, 1);
          if !h.Headers? {
            return Raised(NoMethodError);
          }
          headers := Some(h.fields);
          if !Truthy(bodyPermitted) {
            Finish();
          }
          return Returned;
        }
      } else {
        Finish();
        return Raised(ConnectionError);
      }
    }

    /**
     `each`: when the body is permitted, pull values until a falsy one or
     `:done` and yield them (framed, and empty ones skipped, when the headers
     say chunked), then wait for the worker, then yield the terminating frame
     when chunked. The block may break out at any yield; nothing after that
     point runs.
     */
    method Each(consumer: Consumer) returns (outcome: Outcome)
      modifies this`pipe, this`waitCount, this`output
      ensures var r := EachSpec(bodyPermitted, headers, old(pipe), consumer);
        && outcome == r.outcome && output == old(output) + r.yielded
        && pipe == r.rest && waitCount == old(waitCount) + r.waits
    {
      if !Truthy(bodyPermitted) {
        return Returned;
      }
      if headers.None? {
        return Raised(NoMethodError);
      }
      outcome := Stream(IsChunked(headers.value), consumer);
    }

    /** The loop of `each` and what follows it, once the body is known to be permitted. */
    method Stream(chunked: bool, consumer: Consumer) returns (outcome: Outcome)
      modifies this`pipe, this`waitCount, this`output
      ensures var r := BodyLoop(chunked, old(pipe), consumer);
        && outcome == r.outcome && output == old(output) + r.yielded
        && pipe == r.rest && waitCount == old(waitCount) + r.waits
    {
      ghost var run := BodyLoop(chunked, pipe, consumer);
      var budget := consumer;
      ghost var ys: seq<Msg> := [];
      while true
        invariant output == old(output) + ys && waitCount == old(waitCount)
        invariant run == After(ys, BodyLoop(chunked, pipe, budget))
        decreases |pipe|
      {
        ghost var before := pipe;
        var chunk := ReadFromRemote();
        var turn := TurnOf(chunked, chunk);
        if turn.Leave? {
          BodyLoopStops(chunked, before, budget, ys);
          break;
        } else if turn.Raise? {
          BodyLoopStops(chunked, before, budget, ys);
          return Raised(NoMethodError);
        } else if turn.Yield? {
          AppendTwice(old(output), ys, [turn.value]);
          output := output + [turn.value];
          if budget == BreakOn(0) {
            ys := ys + [turn.value];
            return Broken;
          }
          BodyLoopYields(chunked, before, budget, ys, turn.value);
          ys := ys + [turn.value];
          budget := Took(budget);
        }
      }
      AppendTwice(old(output), ys, if chunked then [Chunk(LastFrame)] else []);
      outcome := Conclude(chunked, budget);
    }

    /** After the loop of `each`: wait for the worker, then, when chunked, yield the terminating frame. */
    method Conclude(chunked: bool, consumer: Consumer) returns (outcome: Outcome)
      modifies this`waitCount, this`output
      ensures waitCount == old(waitCount) + 1
      ensures output == old(output) + if chunked then [Chunk(LastFrame)] else []
      ensures outcome == if chunked && consumer == BreakOn(0) then Broken else Returned
    {
      Finish();
      if chunked {
        output := output + [Chunk(LastFrame)];
        if consumer == BreakOn(0) {
          return Broken;
        }
      }
      return Returned;
    }
  }

  /**
   One proxied request as the proxy and Rack drive it: `receive`, and when it
   returns, `each` with the given block. The worker is waited on exactly once
   whenever `receive` raises one of its own errors or the whole run returns;
   never when a value of the wrong type raises `NoMethodError`; and, when the
   block breaks out, only if that was at the terminating frame.
   */
  method Serve(q: seq<Msg>, raiseOn5xx: bool, consumer: Consumer)
    returns (outcome: Outcome, status: Msg, yielded: seq<Msg>, rest: seq<Msg>, waits: nat)
    ensures status == Read(q, 0)
    ensures !Truthy(Read(q, 0)) ==>
      outcome == Raised(ConnectionError) && waits == 1 && yielded == [] && rest == Drop(q, 1)
    ensures Truthy(Read(q, 0)) && raiseOn5xx && MatchesFiveXX(Text(Read(q, 0))) ==>
      outcome == Raised(HttpServerError) && waits == 1 && yielded == [] && rest == Drop(q, 1)
    ensures Truthy(Read(q, 0)) && !(raiseOn5xx && MatchesFiveXX(Text(Read(q, 0))))
      && Read(q, 2).Headers? && !Truthy(Read(q, 1))
      ==> outcome == Returned && waits == 1 && yielded == [] && rest == Drop(q, 3)
    ensures outcome == Returned ==> waits == 1
    ensures outcome == Raised(NoMethodError) ==> waits == 0
    ensures outcome == Broken ==> waits <= 1 && yielded != []
    ensures outcome == Broken && waits == 1 ==> yielded[|yielded| - 1] == Chunk(LastFrame)
  {
    var r := new Response(q);
    outcome := r.Receive(raiseOn5xx);
    if outcome == Returned {
      ghost var bodyQ := r.pipe;
      outcome := r.Each(consumer);
      if Truthy(r.bodyPermitted) {
        BodyLoopWaits(IsChunked(r.headers.value), bodyQ, consumer);
      }
    }
    status, yielded, rest, waits := r.status, r.output, r.pipe, r.waitCount;
  }
}
