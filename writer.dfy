/**
 The session's outbound writer (writePump in internal/client.go) as a state
 machine driven by what its `select` receives: a message from the outbound
 queue, the queue found closed, or a ping tick. Socket outcomes (NextWriter,
 Close of the frame writer, the ping write) are inputs of the events.

 JSON encoding is the parameter `enc`: `enc(m)` is what `json.Encoder.Encode`
 appends to the buffer for `m` (the JSON text and its trailing newline).
 */
module ClientWriter {
  import opened ChatClient

  /** What the writer's `select` picked. */
  datatype WriterEvent =
      /** A message `first` from the queue; `queued` are the `len(sendTo)`
          messages then waiting, which the writer drains into the same frame. */
    | Received(first: Message, queued: seq<Message>, nextWriterOk: bool, closeOk: bool)
      /** The receive reported the queue closed by the Hub. */
    | QueueClosed
      /** The ping ticker fired; `pingOk` is the outcome of the ping write. */
    | Tick(pingOk: bool)

  datatype Frame = TextFrame(payload: string) | CloseFrame | PingFrame

  /** The frames the writer wrote, how many events it consumed, and whether it returned. */
  datatype WriterRun = WriterRun(frames: seq<Frame>, consumed: nat, stopped: bool)

  // ---------------------------------------------------------------------------
  // The batch frame: one growing buffer, re-written after every drained message.

  /** The concatenated encodings of `ms`, in order. */
  function EncAll(enc: Message -> string, ms: seq<Message>): (s: string)
  {
    if ms == [] then [] else EncAll(enc, ms[..|ms| - 1]) + enc(ms[|ms| - 1])
  }

  /**
   The payload of the text frame written for a batch `ms` (the received
   message followed by the drained ones): the frame receives the whole buffer
   after each message is encoded into it, so it is the concatenation of the
   growing prefixes `EncAll(ms[..1]) + EncAll(ms[..2]) + ... + EncAll(ms)`.
   */
  function BatchFrame(enc: Message -> string, ms: seq<Message>): (payload: string)
  {
    if ms == [] then [] else BatchFrame(enc, ms[..|ms| - 1]) + EncAll(enc, ms)
  }

  /**
   Encodes a received message and the `queued` ones drained after it, the way
   the source does: the same buffer keeps growing and the whole buffer is
   written again after every drained message.
   */
  method EncodeBatch(enc: Message -> string, first: Message, queued: seq<Message>) returns (payload: string)
    ensures payload == BatchFrame(enc, [first] + queued)
  {
    ghost var ms := [first] + queued;
    var buffer := enc(first);
    assert ms[..1] == [first];
    assert EncAll(enc, ms[..1]) == buffer by {
      assert ms[..1][..0] == [];
    }
    payload := buffer;
    assert BatchFrame(enc, ms[..1]) == payload by {
      assert ms[..1][..0] == [];
    }
    var i := 0;
    while i < |queued|
      invariant 0 <= i <= |queued|
      invariant buffer == EncAll(enc, ms[..i + 1])
      invariant payload == BatchFrame(enc, ms[..i + 1])
    {
      buffer := buffer + enc(queued[i]);
      payload := payload + buffer;
      assert ms[..i + 2][..i + 1] == ms[..i + 1];
      i := i + 1;
    }
    assert ms[..|queued| + 1] == ms;
  }

  /** Every batch frame ends with the encodings of the whole batch, in order. */
  lemma BatchFrameEndsWithAll(enc: Message -> string, ms: seq<Message>)
    requires ms != []
    ensures |EncAll(enc, ms)| <= |BatchFrame(enc, ms)|
    ensures BatchFrame(enc, ms)[|BatchFrame(enc, ms)| - |EncAll(enc, ms)|..] == EncAll(enc, ms)
  {
  }

  /** A lone message is framed as its own encoding. */
  lemma BatchFrameSingle(enc: Message -> string, m: Message)
    ensures BatchFrame(enc, [m]) == enc(m)
  {
    assert [m][..0] == [];
    assert EncAll(enc, [m]) == enc(m);
  }

  // ---------------------------------------------------------------------------
  // The writer loop.

  /**
   The frames one event writes and whether the loop goes on: a closed queue
   writes a close frame and returns; a failed NextWriter writes nothing and
   returns; otherwise the batch frame is written and the loop returns if
   closing the frame writer failed; a tick writes a ping and returns if the
   ping failed.
   */
  function WriterStep(enc: Message -> string, e: WriterEvent): (r: (seq<Frame>, bool))
    ensures |r.0| <= 1
    ensures CloseFrame in r.0 ==> e.QueueClosed? && !r.1
    ensures PingFrame in r.0 <==> e.Tick?
    ensures e.QueueClosed? ==> r == ([CloseFrame], false)
    ensures e.Tick? ==> r.1 == e.pingOk
    ensures e.Received? && !e.nextWriterOk ==> r == ([], false)
    ensures e.Received? && e.nextWriterOk ==> |r.0| == 1 && r.0[0].TextFrame? && r.1 == e.closeOk
  {
    match e
    case QueueClosed => ([CloseFrame], false)
    case Tick(pingOk) => ([PingFrame], pingOk)
    case Received(first, queued, nextWriterOk, closeOk) =>
      if !nextWriterOk then ([], false)
      else ([TextFrame(BatchFrame(enc, [first] + queued))], closeOk)
  }

  /** True when the event makes the writer return. */
  predicate Stops(enc: Message -> string, e: WriterEvent) {
    !WriterStep(enc, e).1
  }

  /**
   The writer over a trace of events: it handles events in order until one
   makes it return; the rest are never consumed. A close frame, when written,
   is the last frame.
   */
  function WritePumpSpec(enc: Message -> string, events: seq<WriterEvent>): (r: WriterRun)
    ensures r.consumed <= |events|
    ensures !r.stopped ==> r.consumed == |events|
    ensures r.stopped ==> r.consumed > 0 && Stops(enc, events[r.consumed - 1])
    ensures forall i :: 0 <= i < r.consumed - 1 ==> !Stops(enc, events[i])
    ensures forall i :: 0 <= i < |r.frames| && r.frames[i] == CloseFrame ==> i == |r.frames| - 1 && r.stopped
  {
    if events == [] then WriterRun([], 0, false)
    else
      var step := WriterStep(enc, events[0]);
      if !step.1 then WriterRun(step.0, 1, true)
      else
        var rest := WritePumpSpec(enc, events[1..]);
        assert forall i :: 0 <= i < rest.consumed - 1 ==> events[1..][i] == events[i + 1];
        WriterRun(step.0 + rest.frames, rest.consumed + 1, rest.stopped)
  }

  /** One pass of the writer's `select` over the event it received. */
  method HandleEvent(enc: Message -> string, e: WriterEvent) returns (written: seq<Frame>, goOn: bool)
    ensures (written, goOn) == WriterStep(enc, e)
  {
    match e {
      case QueueClosed =>
        written, goOn := [CloseFrame], false;
      case Tick(pingOk) =>
        written, goOn := [PingFrame], pingOk;
      case Received(first, queued, nextWriterOk, closeOk) =>
        if !nextWriterOk {
          written, goOn := [], false;
        } else {
          var payload := EncodeBatch(enc, first, queued);
          written, goOn := [TextFrame(payload)], closeOk;
        }
    }
  }

  /**
   A closed queue ends the writer: if the events before it all let the loop
   go on, the writer consumes the closed-queue event, returns, and its last
   frame is the close frame.
   */
  lemma {:induction false} ClosedQueueEndsRun(enc: Message -> string, events: seq<WriterEvent>, k: nat)
    requires k < |events| && events[k].QueueClosed?
    requires forall i :: 0 <= i < k ==> !Stops(enc, events[i])
    ensures var r := WritePumpSpec(enc, events);
      r.stopped && r.consumed == k + 1 && |r.frames| > 0 && r.frames[|r.frames| - 1] == CloseFrame
  {
    if k > 0 {
      assert !Stops(enc, events[0]);
      assert events[1..][k - 1] == events[k];
      assert forall i :: 0 <= i < k - 1 ==> events[1..][i] == events[i + 1];
      ClosedQueueEndsRun(enc, events[1..], k - 1);
    }
  }

  /** The writer's run from event `i` on, after the frames written before it. */
  function Resume(enc: Message -> string, events: seq<WriterEvent>, frames: seq<Frame>, i: nat): (r: WriterRun)
    requires i <= |events|
  {
    var rest := WritePumpSpec(enc, events[i..]);
    WriterRun(frames + rest.frames, i + rest.consumed, rest.stopped)
  }

  /** One event of `Resume`: its frames are appended, and the run stops or goes on. */
  lemma ResumeStep(enc: Message -> string, events: seq<WriterEvent>, frames: seq<Frame>, i: nat)
    requires i < |events|
    ensures var step := WriterStep(enc, events[i]);
      Resume(enc, events, frames, i) ==
        if step.1 then Resume(enc, events, frames + step.0, i + 1) else WriterRun(frames + step.0, i + 1, true)
  {
    assert events[i..][1..] == events[i + 1..];
  }

  /** The writer loop. */
  method WritePump(enc: Message -> string, events: seq<WriterEvent>) returns (frames: seq<Frame>, consumed: nat, stopped: bool)
    ensures WriterRun(frames, consumed, stopped) == WritePumpSpec(enc, events)
  {
    frames, consumed, stopped := [], 0, false;
    assert events[0..] == events;
    while consumed < |events| && !stopped
      invariant consumed <= |events|
      invariant !stopped ==> WritePumpSpec(enc, events) == Resume(enc, events, frames, consumed)
      invariant stopped ==> WritePumpSpec(enc, events) == WriterRun(frames, consumed, true)
    {
      ResumeStep(enc, events, frames, consumed);
      var written, goOn := HandleEvent(enc, events[consumed]);
      frames := frames + written;
      stopped := !goOn;
      consumed := consumed + 1;
    }
    if !stopped {
      assert events[consumed..] == [];
    }
  }

  /** Number of ping frames. */
  function Pings(frames: seq<Frame>): nat {
    if frames == [] then 0 else (if frames[0] == PingFrame then 1 else 0) + Pings(frames[1..])
  }

  /** Number of tick events. */
  function Ticks(events: seq<WriterEvent>): nat {
    if events == [] then 0 else (if events[0].Tick? then 1 else 0) + Ticks(events[1..])
  }

  lemma {:induction false} PingsAppend(a: seq<Frame>, b: seq<Frame>)
    ensures Pings(a + b) == Pings(a) + Pings(b)
  {
    if a != [] {
      assert (a + b)[1..] == a[1..] + b;
      PingsAppend(a[1..], b);
    } else {
      assert a + b == b;
    }
  }

  /** Each tick the writer consumes writes exactly one ping frame, and nothing else does. */
  lemma {:induction false} OnePingPerTick(enc: Message -> string, events: seq<WriterEvent>)
    ensures var r := WritePumpSpec(enc, events);
      Pings(r.frames) == Ticks(events[..r.consumed])
  {
    if events != [] {
      var step := WriterStep(enc, events[0]);
      var r := WritePumpSpec(enc, events);
      assert Pings(step.0) == (if events[0].Tick? then 1 else 0) by {
        if step.0 != [] { assert step.0[1..] == []; }
      }
      if !step.1 {
        assert events[..1][1..] == [];
      } else {
        var rest := WritePumpSpec(enc, events[1..]);
        OnePingPerTick(enc, events[1..]);
        PingsAppend(step.0, rest.frames);
        assert events[..r.consumed][1..] == events[1..][..rest.consumed];
      }
    }
  }

  /**
   The outbound queue is unbuffered (make(chan *Message) in CreateNewSocketUser),
   so `len(sendTo)` is always 0 and nothing is drained: every text frame then
   carries exactly the encoding of the one message received.
   */
  lemma {:induction false} UnbufferedFramesCarryOneMessage(enc: Message -> string, events: seq<WriterEvent>)
    requires forall i :: 0 <= i < |events| && events[i].Received? ==> events[i].queued == []
    ensures forall f :: f in WritePumpSpec(enc, events).frames && f.TextFrame? ==>
              exists i :: 0 <= i < |events| && events[i].Received? && f.payload == enc(events[i].first)
  {
    if events != [] {
      var rest := events[1..];
      assert forall i :: 0 <= i < |rest| ==> rest[i] == events[i + 1];
      UnbufferedFramesCarryOneMessage(enc, rest);
      var step := WriterStep(enc, events[0]);
      if events[0].Received? {
        assert [events[0].first] + events[0].queued == [events[0].first];
        BatchFrameSingle(enc, events[0].first);
      }
      var frames := WritePumpSpec(enc, events).frames;
      assert frames == if step.1 then step.0 + WritePumpSpec(enc, rest).frames else step.0;
      forall f | f in frames && f.TextFrame?
        ensures exists i :: 0 <= i < |events| && events[i].Received? && f.payload == enc(events[i].first)
      {
        if f in step.0 {
          assert events[0].Received? && f.payload == enc(events[0].first);
        } else {
          var i :| 0 <= i < |rest| && rest[i].Received? && f.payload == enc(rest[i].first);
          assert events[i + 1] == rest[i];
        }
      }
    }
  }

  // ---------------------------------------------------------------------------
  // The batch frame repeats earlier messages.

  /**
   As written, a batch of two or more messages repeats the first: the frame
   begins `enc(m1) + enc(m1) + enc(m2)`, so the peer receives `m1` at least
   twice and the frame is longer than the encodings of the batch.
   */
  lemma BatchFrameRepeatsFirst(enc: Message -> string, m1: Message, m2: Message, rest: seq<Message>)
    requires enc(m1) != []
    ensures var payload := BatchFrame(enc, [m1, m2] + rest);
      && |payload| > |EncAll(enc, [m1, m2] + rest)|
      && |payload| >= 2 * |enc(m1)| + |enc(m2)|
      && payload[..2 * |enc(m1)| + |enc(m2)|] == enc(m1) + enc(m1) + enc(m2)
  {
    var ms := [m1, m2] + rest;
    BatchFramePrefix(enc, ms, 2);
    assert ms[..2] == [m1, m2];
    assert ms[..2][..1] == [m1];
    assert [m1][..0] == [];
    assert [m1, m2][..1] == [m1];
    assert EncAll(enc, [m1]) == enc(m1);
    assert BatchFrame(enc, [m1]) == enc(m1);
    assert EncAll(enc, [m1, m2]) == enc(m1) + enc(m2);
    assert BatchFrame(enc, [m1, m2]) == enc(m1) + (enc(m1) + enc(m2));
    BatchFrameLonger(enc, ms);
  }

  /** The frame of a batch extends the frame of any non-empty prefix of it. */
  lemma {:induction false} BatchFramePrefix(enc: Message -> string, ms: seq<Message>, k: nat)
    requires 0 < k <= |ms|
    ensures BatchFrame(enc, ms[..k]) <= BatchFrame(enc, ms)
  {
    if k < |ms| {
      BatchFramePrefix(enc, ms[..|ms| - 1], k);
      assert ms[..|ms| - 1][..k] == ms[..k];
    } else {
      assert ms[..k] == ms;
    }
  }

  /** With two or more messages and a non-empty first encoding, the frame is longer than the batch's encodings. */
  lemma {:induction false} BatchFrameLonger(enc: Message -> string, ms: seq<Message>)
    requires |ms| >= 2 && enc(ms[0]) != []
    ensures |BatchFrame(enc, ms)| > |EncAll(enc, ms)|
  {
    var init := ms[..|ms| - 1];
    EncAllNonEmpty(enc, init);
    assert |BatchFrame(enc, init)| >= |EncAll(enc, init)| by {
      BatchFrameEndsWithAll(enc, init);
    }
  }

  lemma {:induction false} EncAllNonEmpty(enc: Message -> string, ms: seq<Message>)
    requires ms != [] && enc(ms[0]) != []
    ensures |EncAll(enc, ms)| > 0
  {
    if |ms| > 1 {
      EncAllNonEmpty(enc, ms[..|ms| - 1]);
    }
  }

  /**
   The frame the drain evidently intends: every message of the batch encoded
   exactly once, in order.
   */
  function IntendedBatchFrame(enc: Message -> string, ms: seq<Message>): (payload: string)
  {
    EncAll(enc, ms)
  }

  /**
   With the intended frame, batching is invisible to the peer: the frame for
   `a + b` is the frame for `a` followed by the frame for `b`, so draining
   queued messages into one frame sends the same bytes as one frame each.
   */
  lemma {:induction false} IntendedBatchIsTransparent(enc: Message -> string, a: seq<Message>, b: seq<Message>)
    ensures IntendedBatchFrame(enc, a + b) == IntendedBatchFrame(enc, a) + IntendedBatchFrame(enc, b)
  {
    if b != [] {
      IntendedBatchIsTransparent(enc, a, b[..|b| - 1]);
      assert (a + b)[..|a + b| - 1] == a + b[..|b| - 1];
    } else {
      assert a + b == a;
    }
  }
}
