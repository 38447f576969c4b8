/** The bridge's receive buffer and transmit loop in place, against the framing model. */
module WebSocketBridge {
  import opened Basics
  import opened WebSocketFraming

  /** The transport's answer to the i-th send, of n bytes: at most n, negative on an error. `link` lists the answers it
      would give; past its end the connection is gone. */
  function Answer(link: seq<int>, i: nat, n: nat): int { if i < |link| && link[i] <= n then link[i] else -1 }

  predicate Accepted(link: seq<int>, i: nat, f: TxFrame) { Answer(link, i, |f.payload|) == |f.payload| }

  /** The transport accepts every data frame in full. */
  ghost predicate AllAccepted(link: seq<int>, frames: seq<TxFrame>) {
    forall i :: 0 <= i < |frames| ==> Accepted(link, i, frames[i])
  }

  /** The next chunk is the frame due. */
  lemma {:induction false} NextChunk(payload: Bytes, offset: nat, frag: nat, chunk: nat, rest: seq<TxFrame>)
    requires frag > 0 && offset < |payload| && chunk == (if |payload| - offset < frag then |payload| - offset else frag)
    requires rest == Tail(payload[offset..], frag)
    ensures |rest| > 0 && rest[0] == TxFrame(Cont, false, payload[offset..offset + chunk]) && rest[1..] == Tail(payload[offset + chunk..], frag)
  {
    assert payload[offset..][..chunk] == payload[offset..offset + chunk] && payload[offset..][chunk..] == payload[offset + chunk..];
    TailStep(payload[offset..], frag, chunk);
  }

  /** The loop over the fragments of a long message. */
  method SendFragments(payload: Bytes, frag: nat, link: seq<int>) returns (sent: int, wire: seq<TxFrame>)
    requires 0 < frag < |payload|
    ensures sent == |payload| <==> AllAccepted(link, Fragments(payload, frag))
    ensures sent == |payload| ==> wire == Fragments(payload, frag)
  {
    ghost var all := Fragments(payload, frag);
    var first := TxFrame(Text, false, payload[..frag]);
    assert all[0] == first && all[1..] == Tail(payload[frag..], frag);
    sent, wire := Answer(link, 0, frag), [];
    assert sent == frag <==> Accepted(link, 0, all[0]);
    if sent != frag { return; }
    wire := [first];
    var offset := frag;
    while offset < |payload|
      invariant frag <= offset <= |payload| && sent == offset && |wire| <= |all|
      invariant wire == all[..|wire|] && all[|wire|..] == Tail(payload[offset..], frag)
      invariant AllAccepted(link, wire)
    {
      var chunk := if |payload| - offset < frag then |payload| - offset else frag;
      NextChunk(payload, offset, frag, chunk, all[|wire|..]);
      var f := TxFrame(Cont, false, payload[offset..offset + chunk]);
      assert all[|wire|] == f;
      var n := Answer(link, |wire|, chunk);
      assert n == chunk <==> Accepted(link, |wire|, all[|wire|]);
      if n != chunk {
        sent := if n < 0 then n else sent + n;
        return;
      }
      wire := wire + [f];
      offset, sent := offset + chunk, sent + n;
    }
    assert wire == all;
  }

  /** The transmit path of mcp_ws_handle_tx_message. `sent` equals the payload length, the source's success test, exactly
      when every fragment went out in full and the closing frame was accepted, and then the wire holds the split message. */
  method Transmit(payload: Bytes, frag: nat, link: seq<int>, finOk: bool) returns (sent: int, wire: seq<TxFrame>)
    requires frag > 0
    ensures sent == |payload| <==> AllAccepted(link, Fragments(payload, frag)) && (|payload| > frag ==> finOk)
    ensures sent == |payload| ==> wire == Split(payload, frag)
  {
    if |payload| <= frag {
      sent := Answer(link, 0, |payload|);
      wire := [TxFrame(Text, true, payload)];
      assert sent == |payload| <==> Accepted(link, 0, wire[0]);
      return;
    }
    sent, wire := SendFragments(payload, frag, link);
    if sent != |payload| { return; }
    if !finOk {
      sent := -1;
      return;
    }
    wire := wire + [TxFrame(Cont, true, [])];
  }

  class Receiver {
    const buffer: array<nat>
    var length: nat
    var active: bool
    var discard: bool

    ghost predicate Valid()
      reads this
    {
      length <= buffer.Length && (!active ==> length == 0 && !discard)
    }

    ghost function View(): Rx
      requires Valid()
      reads this, buffer
    {
      Rx(buffer[..length], active, discard)
    }

    constructor (max: nat)
      ensures Valid() && View() == Quiet() && buffer.Length == max && fresh(buffer)
    {
      buffer := new nat[max](i => 0);
      length, active, discard := 0, false, false;
    }

    /** The data branch of the WebSocket event handler; nothing is ever written past the buffer. */
    method OnData(p: Piece) returns (message: Option<Bytes>)
      requires Valid()
      modifies this, buffer
      ensures Valid()
      ensures View() == Receive(old(View()), p, buffer.Length) && message == Delivers(old(View()), p, buffer.Length)
    {
      message := None;
      if p.op.Control? { return; }
      var start := p.op.Text? && p.offset == 0;
      if start {
        if active { length, active, discard := 0, false, false; }
        active := true;
      } else if p.op.Binary? {
        length, active, discard := 0, false, false;
        return;
      } else if !active {
        return;
      }
      assert Rx(buffer[..length], active, discard) == Opened(old(View()), p);
      Collect(p);
      if p.offset + |p.data| >= p.payloadLen && p.fin {
        if !discard { message := Some(buffer[..length]); }
        length, active, discard := 0, false, false;
      }
    }

    /** The two length checks and the copy. */
    method Collect(p: Piece)
      requires length <= buffer.Length
      modifies this`length, this`discard, buffer
      ensures length <= buffer.Length
      ensures forall s: Rx :: Opened(s, p) == old(Rx(buffer[..length], active, discard)) ==>
                Collected(s, p, buffer.Length) == Rx(buffer[..length], active, discard)
    {
      if p.offset == 0 && p.payloadLen > 0 && length + p.payloadLen > buffer.Length { discard := true; }
      if !discard && |p.data| > 0 {
        if length + |p.data| > buffer.Length {
          discard := true;
        } else {
          Append(p.data);
        }
      }
    }

    /** The memcpy into the receive buffer. */
    method Append(data: Bytes)
      requires length + |data| <= buffer.Length
      modifies this`length, buffer
      ensures length == old(length) + |data| && buffer[..length] == old(buffer[..length]) + data
    {
      for i := 0 to |data|
        invariant length == old(length)
        invariant buffer[..length] == old(buffer[..length])
        invariant buffer[length..length + i] == data[..i]
      {
        buffer[length + i] := data[i];
      }
      length := length + |data|;
    }
  }
}
