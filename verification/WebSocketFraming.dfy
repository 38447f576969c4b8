/** WebSocket messages of the MCP bridge: reassembly of the pieces the client library hands out, and the
    fragmenting sender (fragmentation as in section 5.4 of RFC 6455). */
module WebSocketFraming {
  import opened Basics

  type Bytes = seq<nat>

  datatype Op = Text | Binary | Cont | Control

  /** One data event: part of a frame's payload at an offset, with the frame's opcode, length and FIN bit. */
  datatype Piece = Piece(op: Op, fin: bool, payloadLen: nat, offset: nat, data: Bytes)

  /** Receiver state; `buffer` is the used part of rx_buffer. */
  datatype Rx = Rx(buffer: Bytes, active: bool, discard: bool)

  function Quiet(): Rx { Rx([], false, false) }

  /** Piece p belongs to a message being collected, possibly one it starts. */
  predicate Collects(s: Rx, p: Piece) { !p.op.Control? && ((p.op.Text? && p.offset == 0) || (!p.op.Binary? && s.active)) }

  /** The state in which p's bytes are considered. */
  function Opened(s: Rx, p: Piece): Rx {
    if p.op.Text? && p.offset == 0 then (if s.active then Rx([], true, false) else s.(active := true)) else s
  }

  /** After the two length checks and the copy. */
  function Collected(s: Rx, p: Piece, max: nat): Rx {
    var o := Opened(s, p);
    var u := if p.offset == 0 && p.payloadLen > 0 && |o.buffer| + p.payloadLen > max then o.(discard := true) else o;
    if u.discard || |p.data| == 0 then u
    else if |u.buffer| + |p.data| > max then u.(discard := true)
    else u.(buffer := u.buffer + p.data)
  }

  predicate Ends(p: Piece) { p.offset + |p.data| >= p.payloadLen && p.fin }

  /** The event handler on one piece. */
  function Receive(s: Rx, p: Piece, max: nat): Rx {
    if p.op.Control? then s
    else if p.op.Binary? then Quiet()
    else if !Collects(s, p) then s
    else if Ends(p) then Quiet() else Collected(s, p, max)
  }

  /** The message p completes, if any. */
  function Delivers(s: Rx, p: Piece, max: nat): Option<Bytes> {
    if Collects(s, p) && Ends(p) && !Collected(s, p, max).discard then Some(Collected(s, p, max).buffer) else None
  }

  function Final(s: Rx, pieces: seq<Piece>, max: nat): Rx
    decreases |pieces|
  {
    if |pieces| == 0 then s else Final(Receive(s, pieces[0], max), pieces[1..], max)
  }

  function Delivered(s: Rx, pieces: seq<Piece>, max: nat): seq<Bytes>
    decreases |pieces|
  {
    if |pieces| == 0 then []
    else
      var m := Delivers(s, pieces[0], max);
      (if m.Some? then [m.value] else []) + Delivered(Receive(s, pieces[0], max), pieces[1..], max)
  }

  lemma {:induction false} Compose(s: Rx, a: seq<Piece>, b: seq<Piece>, max: nat)
    ensures Final(s, a + b, max) == Final(Final(s, a, max), b, max)
    ensures Delivered(s, a + b, max) == Delivered(s, a, max) + Delivered(Final(s, a, max), b, max)
    decreases |a|
  {
    if |a| == 0 {
      assert a + b == b;
    } else {
      assert (a + b)[1..] == a[1..] + b;
      Compose(Receive(s, a[0], max), a[1..], b, max);
    }
  }

  // ----- well-formed streams

  /** A frame's payload in the chunks it arrives in. */
  type Chunks = seq<Bytes>

  function Joined(chunks: Chunks): Bytes { if |chunks| == 0 then [] else chunks[0] + Joined(chunks[1..]) }

  /** An empty payload is one empty piece; otherwise every piece carries something. */
  predicate ChunksOk(chunks: Chunks) { chunks == [[]] || (|chunks| > 0 && NonEmpty(chunks)) }
  predicate NonEmpty(chunks: Chunks) { forall i :: 0 <= i < |chunks| ==> |chunks[i]| > 0 }

  datatype Message = Message(text: bool, frames: seq<Chunks>)

  predicate MessageOk(m: Message) { |m.frames| > 0 && forall i :: 0 <= i < |m.frames| ==> ChunksOk(m.frames[i]) }

  function PayloadOf(frames: seq<Chunks>): Bytes { if |frames| == 0 then [] else Joined(frames[0]) + PayloadOf(frames[1..]) }

  function PiecesFrom(op: Op, fin: bool, len: nat, offset: nat, chunks: Chunks): seq<Piece>
    decreases |chunks|
  {
    if |chunks| == 0 then []
    else [Piece(op, fin, len, offset, chunks[0])] + PiecesFrom(op, fin, len, offset + |chunks[0]|, chunks[1..])
  }

  function FramePieces(op: Op, fin: bool, chunks: Chunks): seq<Piece> { PiecesFrom(op, fin, |Joined(chunks)|, 0, chunks) }

  /** The first frame carries the opcode, later ones are continuations, the last one has FIN. */
  function FramesPieces(op: Op, frames: seq<Chunks>): seq<Piece>
    decreases |frames|
  {
    if |frames| == 0 then [] else FramePieces(op, |frames| == 1, frames[0]) + FramesPieces(Cont, frames[1..])
  }

  function MessagePieces(m: Message): seq<Piece> { FramesPieces(if m.text then Text else Binary, m.frames) }

  function StreamPieces(ms: seq<Message>): seq<Piece> {
    if |ms| == 0 then [] else MessagePieces(ms[0]) + StreamPieces(ms[1..])
  }

  /** What a receiver should deliver: the text messages that fit, whole and in order. */
  function Expected(ms: seq<Message>, max: nat): seq<Bytes> {
    if |ms| == 0 then []
    else
      var p := PayloadOf(ms[0].frames);
      (if ms[0].text && |p| <= max then [p] else []) + Expected(ms[1..], max)
  }

  // ----- correctness of reassembly

  /** s is collecting a text message of which `t` has arrived in whole frames. */
  ghost predicate Collecting(s: Rx, t: Bytes, max: nat) {
    s.active && (if |t| <= max then !s.discard && s.buffer == t else s.discard)
  }

  /** s is inside a frame that will bring the message to `whole`, with `t` received so far. */
  ghost predicate Inside(s: Rx, t: Bytes, whole: nat, max: nat) {
    s.active && (if whole <= max then !s.discard && s.buffer == t else s.discard)
  }

  /** The pieces of a frame after its first. */
  lemma {:induction false} FrameRest(s: Rx, t: Bytes, op: Op, fin: bool, len: nat, offset: nat, chunks: Chunks, max: nat)
    requires NonEmpty(chunks) && 0 < offset && offset + |Joined(chunks)| == len && |chunks| > 0
    requires !op.Binary? && !op.Control? && Inside(s, t, |t| + |Joined(chunks)|, max)
    ensures var ps := PiecesFrom(op, fin, len, offset, chunks); var all := t + Joined(chunks);
            if fin then Final(s, ps, max) == Quiet() && Delivered(s, ps, max) == (if |all| <= max then [all] else [])
            else Collecting(Final(s, ps, max), all, max) && Delivered(s, ps, max) == []
    decreases |chunks|
  {
    var ps := PiecesFrom(op, fin, len, offset, chunks);
    var p := Piece(op, fin, len, offset, chunks[0]);
    var s' := Receive(s, p, max);
    assert ps[0] == p && ps[1..] == PiecesFrom(op, fin, len, offset + |chunks[0]|, chunks[1..]);
    assert t + Joined(chunks) == (t + chunks[0]) + Joined(chunks[1..]);
    if |chunks| == 1 {
      assert ps[1..] == [] && Joined(chunks[1..]) == [];
      assert t + Joined(chunks) == t + chunks[0];
    } else {
      assert |chunks[1]| > 0 && |Joined(chunks[1..])| > 0;
      FrameRest(s', t + chunks[0], op, fin, len, offset + |chunks[0]|, chunks[1..], max);
    }
  }

  /** A whole frame: the first of a text message (s quiet, t empty) or a continuation of one being collected. */
  lemma {:induction false} FrameWhole(s: Rx, t: Bytes, op: Op, fin: bool, chunks: Chunks, max: nat)
    requires ChunksOk(chunks)
    requires (op.Text? && s == Quiet() && t == []) || (op.Cont? && Collecting(s, t, max))
    ensures var ps := FramePieces(op, fin, chunks); var all := t + Joined(chunks);
            if fin then Final(s, ps, max) == Quiet() && Delivered(s, ps, max) == (if |all| <= max then [all] else [])
            else Collecting(Final(s, ps, max), all, max) && Delivered(s, ps, max) == []
  {
    var len := |Joined(chunks)|;
    var ps := FramePieces(op, fin, chunks);
    var p := Piece(op, fin, len, 0, chunks[0]);
    assert ps[0] == p && ps[1..] == PiecesFrom(op, fin, len, |chunks[0]|, chunks[1..]);
    assert t + Joined(chunks) == (t + chunks[0]) + Joined(chunks[1..]);
    if |chunks| == 1 {
      assert ps[1..] == [] && Joined(chunks[1..]) == [] && Joined(chunks) == chunks[0];
      assert |chunks[0]| == 0 ==> t + chunks[0] == t;
      assert [] + chunks[0] == chunks[0];
    } else {
      assert |chunks[1]| > 0 && |Joined(chunks[1..])| > 0;
      FrameRest(Receive(s, p, max), t + chunks[0], op, fin, len, |chunks[0]|, chunks[1..], max);
    }
  }

  lemma {:induction false} TextFrames(s: Rx, t: Bytes, op: Op, frames: seq<Chunks>, max: nat)
    requires |frames| > 0 && forall i :: 0 <= i < |frames| ==> ChunksOk(frames[i])
    requires (op.Text? && s == Quiet() && t == []) || (op.Cont? && Collecting(s, t, max))
    ensures Final(s, FramesPieces(op, frames), max) == Quiet()
    ensures var all := t + PayloadOf(frames); Delivered(s, FramesPieces(op, frames), max) == if |all| <= max then [all] else []
    decreases |frames|
  {
    var first, rest := FramePieces(op, |frames| == 1, frames[0]), FramesPieces(Cont, frames[1..]);
    FrameWhole(s, t, op, |frames| == 1, frames[0], max);
    Compose(s, first, rest, max);
    assert t + PayloadOf(frames) == (t + Joined(frames[0])) + PayloadOf(frames[1..]);
    if |frames| == 1 {
      assert t + PayloadOf(frames) == t + Joined(frames[0]);
    } else {
      TextFrames(Final(s, first, max), t + Joined(frames[0]), Cont, frames[1..], max);
    }
  }

  /** Pieces of a binary frame, or of continuations while no text message is open, are dropped. */
  lemma {:induction false} DroppedPieces(op: Op, fin: bool, len: nat, offset: nat, chunks: Chunks, max: nat)
    requires op.Binary? || op.Cont?
    ensures var ps := PiecesFrom(op, fin, len, offset, chunks); Final(Quiet(), ps, max) == Quiet() && Delivered(Quiet(), ps, max) == []
    decreases |chunks|
  {
    if |chunks| > 0 {
      var ps := PiecesFrom(op, fin, len, offset, chunks);
      assert ps[0].op == op && ps[1..] == PiecesFrom(op, fin, len, offset + |chunks[0]|, chunks[1..]);
      DroppedPieces(op, fin, len, offset + |chunks[0]|, chunks[1..], max);
    }
  }

  lemma {:induction false} DroppedFrames(op: Op, frames: seq<Chunks>, max: nat)
    requires op.Binary? || op.Cont?
    ensures Final(Quiet(), FramesPieces(op, frames), max) == Quiet() && Delivered(Quiet(), FramesPieces(op, frames), max) == []
    decreases |frames|
  {
    if |frames| > 0 {
      DroppedPieces(op, |frames| == 1, |Joined(frames[0])|, 0, frames[0], max);
      DroppedFrames(Cont, frames[1..], max);
      Compose(Quiet(), FramePieces(op, |frames| == 1, frames[0]), FramesPieces(Cont, frames[1..]), max);
    }
  }

  lemma {:induction false} StreamDelivered(ms: seq<Message>, max: nat)
    requires forall i :: 0 <= i < |ms| ==> MessageOk(ms[i])
    ensures Final(Quiet(), StreamPieces(ms), max) == Quiet() && Delivered(Quiet(), StreamPieces(ms), max) == Expected(ms, max)
    decreases |ms|
  {
    if |ms| > 0 {
      if ms[0].text {
        TextFrames(Quiet(), [], Text, ms[0].frames, max);
        assert [] + PayloadOf(ms[0].frames) == PayloadOf(ms[0].frames);
      } else {
        DroppedFrames(Binary, ms[0].frames, max);
      }
      StreamDelivered(ms[1..], max);
      Compose(Quiet(), MessagePieces(ms[0]), StreamPieces(ms[1..]), max);
    }
  }

  function WithoutControl(pieces: seq<Piece>): seq<Piece> {
    if |pieces| == 0 then []
    else (if pieces[0].op.Control? then [] else [pieces[0]]) + WithoutControl(pieces[1..])
  }

  lemma {:induction false} ControlIgnored(s: Rx, pieces: seq<Piece>, max: nat)
    ensures Delivered(s, pieces, max) == Delivered(s, WithoutControl(pieces), max)
    decreases |pieces|
  {
    if |pieces| > 0 {
      ControlIgnored(Receive(s, pieces[0], max), pieces[1..], max);
      if pieces[0].op.Control? {
        assert [] + WithoutControl(pieces[1..]) == WithoutControl(pieces[1..]);
        assert WithoutControl(pieces) == WithoutControl(pieces[1..]);
        assert Delivered(s, pieces, max) == Delivered(s, pieces[1..], max);
      } else {
        assert WithoutControl(pieces)[0] == pieces[0] && WithoutControl(pieces)[1..] == WithoutControl(pieces[1..]);
      }
    }
  }

  /** For every well-formed stream, with control frames anywhere between pieces, the messages delivered are exactly the
      text messages no longer than the limit, each whole, in order. */
  lemma {:induction false} ReassemblyExact(pieces: seq<Piece>, ms: seq<Message>, max: nat)
    requires (forall i :: 0 <= i < |ms| ==> MessageOk(ms[i])) && WithoutControl(pieces) == StreamPieces(ms)
    ensures Delivered(Quiet(), pieces, max) == Expected(ms, max)
  {
    ControlIgnored(Quiet(), pieces, max);
    StreamDelivered(ms, max);
  }

  // ----- after anything at all

  /** What the receiver keeps: without an open message the buffer is empty and nothing is being discarded. */
  predicate Sane(s: Rx) { !s.active ==> s == Quiet() }

  lemma {:induction false} SaneAfter(s: Rx, pieces: seq<Piece>, max: nat)
    requires Sane(s)
    ensures Sane(Final(s, pieces, max))
    decreases |pieces|
  {
    if |pieces| > 0 { SaneAfter(Receive(s, pieces[0], max), pieces[1..], max); }
  }

  /** The first piece of a message is received as if nothing had come before. */
  lemma {:induction false} FirstPieceForgets(s: Rx, p: Piece, max: nat)
    requires Sane(s) && (p.op.Binary? || (p.op.Text? && p.offset == 0))
    ensures Receive(s, p, max) == Receive(Quiet(), p, max) && Delivers(s, p, max) == Delivers(Quiet(), p, max)
  {
  }

  lemma {:induction false} FirstPiece(ms: seq<Message>)
    requires |ms| > 0 && MessageOk(ms[0])
    ensures var ps := StreamPieces(ms); |ps| > 0 && (ps[0].op.Binary? || (ps[0].op.Text? && ps[0].offset == 0))
  {
    var m := ms[0];
    var op := if m.text then Text else Binary;
    assert ChunksOk(m.frames[0]);
    var first := FramePieces(op, |m.frames| == 1, m.frames[0]);
    assert first[0] == Piece(op, |m.frames| == 1, |Joined(m.frames[0])|, 0, m.frames[0][0]);
    assert MessagePieces(m)[0] == first[0];
  }

  /** Whatever pieces came before, in whatever order and however malformed, the messages of a well-formed stream that follows
      are delivered exactly: the text messages no longer than the limit, each whole, in order. */
  lemma {:induction false} ReassemblyRecovers(junk: seq<Piece>, ms: seq<Message>, max: nat)
    requires forall i :: 0 <= i < |ms| ==> MessageOk(ms[i])
    ensures Delivered(Quiet(), junk + StreamPieces(ms), max) == Delivered(Quiet(), junk, max) + Expected(ms, max)
  {
    var s, ps := Final(Quiet(), junk, max), StreamPieces(ms);
    Compose(Quiet(), junk, ps, max);
    if |ms| > 0 {
      SaneAfter(Quiet(), junk, max);
      FirstPiece(ms);
      FirstPieceForgets(s, ps[0], max);
      StreamDelivered(ms, max);
    }
  }

  // ----- the sender

  /** A frame as sent: opcode, FIN bit, payload. */
  datatype TxFrame = TxFrame(op: Op, fin: bool, payload: Bytes)

  /** Fragments of at most `frag` bytes, as continuations. */
  function Tail(payload: Bytes, frag: nat): seq<TxFrame>
    requires frag > 0
    decreases |payload|
  {
    if |payload| == 0 then []
    else if |payload| <= frag then [TxFrame(Cont, false, payload)]
    else [TxFrame(Cont, false, payload[..frag])] + Tail(payload[frag..], frag)
  }

  /** The next fragment is the largest that fits. */
  lemma {:induction false} TailStep(payload: Bytes, frag: nat, c: nat)
    requires frag > 0 && |payload| > 0 && c == if |payload| < frag then |payload| else frag
    ensures Tail(payload, frag) == [TxFrame(Cont, false, payload[..c])] + Tail(payload[c..], frag)
  {
    if |payload| <= frag {
      assert payload[..c] == payload && payload[c..] == [];
    }
  }

  /** The data frames of a message, without the empty final continuation. */
  function Fragments(payload: Bytes, frag: nat): seq<TxFrame>
    requires frag > 0
  {
    if |payload| <= frag then [TxFrame(Text, true, payload)]
    else [TxFrame(Text, false, payload[..frag])] + Tail(payload[frag..], frag)
  }

  /** One frame when it fits, otherwise fragments and an empty final continuation. */
  function Split(payload: Bytes, frag: nat): seq<TxFrame>
    requires frag > 0
  {
    Fragments(payload, frag) + if |payload| <= frag then [] else [TxFrame(Cont, true, [])]
  }

  function Payloads(frames: seq<TxFrame>): Bytes { if |frames| == 0 then [] else frames[0].payload + Payloads(frames[1..]) }

  lemma {:induction false} PayloadsAppend(a: seq<TxFrame>, b: seq<TxFrame>)
    ensures Payloads(a + b) == Payloads(a) + Payloads(b)
  {
    if |a| == 0 {
      assert a + b == b;
    } else {
      assert (a + b)[1..] == a[1..] + b;
      PayloadsAppend(a[1..], b);
    }
  }

  lemma {:induction false} TailPayload(payload: Bytes, frag: nat)
    requires frag > 0
    ensures Payloads(Tail(payload, frag)) == payload
    ensures forall i :: 0 <= i < |Tail(payload, frag)| ==>
              var f := Tail(payload, frag)[i]; f.op.Cont? && !f.fin && 0 < |f.payload| <= frag
    decreases |payload|
  {
    if |payload| > frag {
      var f := TxFrame(Cont, false, payload[..frag]);
      TailPayload(payload[frag..], frag);
      assert Tail(payload, frag)[1..] == Tail(payload[frag..], frag);
      assert payload[..frag] + payload[frag..] == payload;
    }
  }

  /** The frames of one message on the wire: one opening frame, continuations, FIN on the last only. */
  predicate OneMessage(frames: seq<TxFrame>) {
    && |frames| > 0 && frames[0].op.Text?
    && (forall i :: 1 <= i < |frames| ==> frames[i].op.Cont?)
    && (forall i :: 0 <= i < |frames| ==> (frames[i].fin <==> i == |frames| - 1))
  }

  /** The splitter sends one message whose payload is the original, in frames of at most `frag` bytes. */
  lemma {:induction false} SplitIsOneMessage(payload: Bytes, frag: nat)
    requires frag > 0
    ensures OneMessage(Split(payload, frag)) && Payloads(Split(payload, frag)) == payload
    ensures forall i :: 0 <= i < |Split(payload, frag)| ==> |Split(payload, frag)[i].payload| <= frag
  {
    if |payload| > frag {
      var head, tail, fin := [TxFrame(Text, false, payload[..frag])], Tail(payload[frag..], frag), [TxFrame(Cont, true, [])];
      TailPayload(payload[frag..], frag);
      PayloadsAppend(head + tail, fin);
      PayloadsAppend(head, tail);
      assert Payloads(head) == payload[..frag] && Payloads(fin) == [];
      assert payload[..frag] + payload[frag..] == payload;
    }
  }

  /** A received message carries the sent frames, each in chunks of the receiver's own making. */
  ghost predicate Carries(m: Message, frames: seq<TxFrame>) {
    m.text && MessageOk(m) && |m.frames| == |frames| && forall i :: 0 <= i < |frames| ==> Joined(m.frames[i]) == frames[i].payload
  }

  lemma {:induction false} CarriedPayload(chunked: seq<Chunks>, frames: seq<TxFrame>)
    requires |chunked| == |frames| && forall i :: 0 <= i < |frames| ==> Joined(chunked[i]) == frames[i].payload
    ensures PayloadOf(chunked) == Payloads(frames)
  {
    if |frames| > 0 { CarriedPayload(chunked[1..], frames[1..]); }
  }

  /** Splitting then reassembling is the identity, however the frames are chunked on arrival, for payloads within the limit;
      longer ones are dropped whole. */
  lemma {:induction false} SplitThenReassemble(payload: Bytes, frag: nat, m: Message, max: nat)
    requires frag > 0 && Carries(m, Split(payload, frag))
    ensures Delivered(Quiet(), MessagePieces(m), max) == if |payload| <= max then [payload] else []
  {
    SplitIsOneMessage(payload, frag);
    CarriedPayload(m.frames, Split(payload, frag));
    TextFrames(Quiet(), [], Text, m.frames, max);
    assert [] + PayloadOf(m.frames) == payload;
  }
}
