/** The input buffer of a connection: messages are taken out of the bytes that have arrived
    (src/connection_manager.c:1106-1157). */
module InBuffer {
  import opened OutBuffer

  // ---------------------------------------------------------------- the bytes of a stream

  predicate Complete(b: seq<byte>) {
    |b| >= PREAMBLE && Size(b) <= |b| - PREAMBLE
  }

  function Behind(b: seq<byte>): (r: seq<byte>)
    requires Complete(b)
    ensures |r| < |b|
  {
    b[PREAMBLE + Size(b)..]
  }

  /** What is left behind the frames that are complete. */
  function Remainder(b: seq<byte>): (r: seq<byte>)
    ensures !Complete(r)
    decreases |b|
  {
    if Complete(b) then Remainder(Behind(b)) else b
  }

  /** No frame is empty. */
  ghost predicate WellFormed(b: seq<byte>)
    decreases |b|
  {
    (|b| >= PREAMBLE ==> Size(b) > 0) && (Complete(b) ==> WellFormed(Behind(b)))
  }

  /** One to four bytes of a frame are missing: the test for a complete one omits the preamble. */
  predicate Short(r: seq<byte>) {
    |r| > PREAMBLE && Size(r) <= |r| < Size(r) + PREAMBLE
  }

  lemma PrefixSize(a: seq<byte>, b: seq<byte>)
    requires |a| >= PREAMBLE
    ensures Size(a + b) == Size(a)
  {
  }

  /** More bytes: frames that were complete stay, the rest is read on. */
  lemma {:induction false} ReadOn(a: seq<byte>, b: seq<byte>)
    ensures Frames(a + b) == Frames(a) + Frames(Remainder(a) + b)
    ensures Remainder(a + b) == Remainder(Remainder(a) + b)
    decreases |a|
  {
    hide Frames, Remainder, Size;
    Unfolded(a);
    Unfolded(a + b);
    if Complete(a) {
      PrefixSize(a, b);
      assert Behind(a + b) == Behind(a) + b;
      ReadOn(Behind(a), b);
      assert (a + b)[PREAMBLE..PREAMBLE + Size(a)] == a[PREAMBLE..PREAMBLE + Size(a)];
    }
  }

  lemma Unfolded(b: seq<byte>)
    ensures Complete(b) ==> Frames(b) == [b[PREAMBLE..PREAMBLE + Size(b)]] + Frames(Behind(b)) && Remainder(b) == Remainder(Behind(b))
    ensures !Complete(b) ==> Frames(b) == [] && Remainder(b) == b
  {
  }

  lemma FirstFrame(m: Message, rest: seq<byte>)
    ensures var b := Framed(m) + rest; Complete(b) && Size(b) == |m| && Behind(b) == rest
  {
    var b := Framed(m) + rest;
    assert b == Preamble(|m|) + (m + rest);
    PreambleSize(|m|, m + rest);
  }

  /** A beginning of a frame that is not all of it. */
  lemma PartOfFrame(m: Message, b: seq<byte>)
    requires b <= Framed(m) && b != Framed(m)
    ensures WellFormed(b) && !Complete(b) && Frames(b) == []
  {
    PreambleSize(|m|, m);
    if |b| >= PREAMBLE {
      assert b + Framed(m)[|b|..] == Framed(m);
      PrefixSize(b, Framed(m)[|b|..]);
    }
  }

  /** Any beginning of a stream is read as a beginning of its messages. */
  lemma {:induction false} PartOfStream(ms: seq<Message>, b: seq<byte>)
    requires b <= Stream(ms)
    ensures WellFormed(b) && Frames(b) <= ms
    decreases |ms|
  {
    if ms == [] {
      assert b == [];
    } else {
      hide Framed, Frames, Size;
      StreamFirst(ms);
      var f, rest := Framed(ms[0]), Stream(ms[1..]);
      if |b| < |f| {
        PartOfFrame(ms[0], b);
      } else {
        var tail := b[|f|..];
        assert b == f + tail && tail <= rest;
        PartOfStream(ms[1..], tail);
        FirstFrame(ms[0], tail);
        FrameFirst(ms[0], tail);
      }
    }
  }

  /** A whole stream leaves nothing behind. */
  lemma {:induction false} NothingLeft(ms: seq<Message>)
    ensures Remainder(Stream(ms)) == []
  {
    if ms != [] {
      StreamFirst(ms);
      FirstFrame(ms[0], Stream(ms[1..]));
      NothingLeft(ms[1..]);
    }
  }

  /** A message of five bytes of which the last has not arrived. */
  lemma LastByteMissing()
    ensures var m: Message := [1, 2, 3, 4, 5]; Short(Framed(m)[..8])
  {
    var m: Message := [1, 2, 3, 4, 5];
    PreambleSize(5, m);
    PrefixSize(Framed(m)[..8], [5]);
    assert Framed(m)[..8] + [5] == Framed(m);
  }

  // ---------------------------------------------------------------- the loop over the buffer

  /** `Overrun`: a message is taken beyond the bytes that have arrived. */
  datatype Status = Done | Malformed | Overrun

  lemma NextMessage(b: seq<byte>, pos: nat)
    requires pos <= |b|
    ensures !More(b[pos..]) ==> Messages(b[pos..]) == [] && Beyond(b[pos..]) == b[pos..]
    ensures More(b[pos..]) ==> var n := Size(b[pos..]);
      && pos + PREAMBLE + n <= |b|
      && Messages(b[pos..]) == [b[pos + PREAMBLE..pos + PREAMBLE + n]] + Messages(b[pos + PREAMBLE + n..])
      && Beyond(b[pos..]) == Beyond(b[pos + PREAMBLE + n..])
  {
    hide Messages, Beyond, Size;
    var r := b[pos..];
    Opened(r);
    if More(r) {
      var n := Size(r);
      assert r[PREAMBLE + n..] == b[pos + PREAMBLE + n..];
      assert r[PREAMBLE..PREAMBLE + n] == b[pos + PREAMBLE..pos + PREAMBLE + n];
    }
  }

  lemma Opened(b: seq<byte>)
    ensures More(b) ==> Messages(b) == [b[PREAMBLE..PREAMBLE + Size(b)]] + Messages(Behind(b)) && Beyond(b) == Beyond(Behind(b))
    ensures !More(b) ==> Messages(b) == [] && Beyond(b) == b
  {
  }

  /** Another message is there to be taken: more than a preamble, and all of a frame that is not
      empty. */
  ghost predicate More(b: seq<byte>) {
    |b| > PREAMBLE && Size(b) > 0 && Complete(b)
  }

  /** The messages at the beginning of the bytes, up to an empty frame if there is one ... */
  ghost function Messages(b: seq<byte>): seq<seq<byte>>
    decreases |b|
  {
    if More(b) then [b[PREAMBLE..PREAMBLE + Size(b)]] + Messages(Behind(b)) else []
  }

  /** ... and what is behind them. */
  ghost function Beyond(b: seq<byte>): seq<byte>
    decreases |b|
  {
    if More(b) then Beyond(Behind(b)) else b
  }

  /** With no empty frame these are all complete frames, and what is left of them. */
  lemma {:induction false} WellFormedMessages(b: seq<byte>)
    requires WellFormed(b)
    ensures Messages(b) == Frames(b) && Beyond(b) == Remainder(b)
    decreases |b|
  {
    Unfolded(b);
    if More(b) { WellFormedMessages(Behind(b)); }
  }

  /** Bytes are malformed only if an empty frame is reached. */
  lemma {:induction false} NoEmptyFrame(b: seq<byte>)
    requires WellFormed(b)
    ensures var r := Beyond(b); !(|r| > PREAMBLE && Size(r) == 0)
    decreases |b|
  {
    if More(b) { NoEmptyFrame(Behind(b)); }
  }

  /** `cm_conn_in_buff_process` (1106-1157).  It takes the messages at the beginning; it fails exactly at
      an empty frame with bytes behind it, reads too far exactly if what is left is short of one to
      four bytes, and otherwise keeps the rest.  On bytes with no empty frame these are all complete
      frames. */
  method Process(b: seq<byte>) returns (status: Status, out: seq<seq<byte>>, rest: seq<byte>)
    ensures out == Messages(b) && rest == if status.Done? then Beyond(b) else b
    ensures status.Malformed? <==> |Beyond(b)| > PREAMBLE && Size(Beyond(b)) == 0
    ensures status.Overrun? <==> Short(Beyond(b))
    ensures WellFormed(b) ==> !status.Malformed? && (status.Overrun? <==> Short(Remainder(b)))
    ensures WellFormed(b) && status.Done? ==> out == Frames(b) && rest == Remainder(b)
  {
    hide Messages, Beyond, WellFormed, Frames, Remainder;
    if WellFormed(b) {
      WellFormedMessages(b);
      NoEmptyFrame(b);
    }
    var pos := 0;
    out, rest := [], b;
    assert b[0..] == b;
    while |b| - pos > PREAMBLE
      invariant 0 <= pos <= |b|
      invariant out + Messages(b[pos..]) == Messages(b) && Beyond(b[pos..]) == Beyond(b)
      decreases |b| - pos
    {
      var n := Size(b[pos..]);
      NextMessage(b, pos);
      if n == 0 {
        return Malformed, out, rest;
      }
      if |b| - pos < n {
        break;
      }
      if |b| - pos < PREAMBLE + n {
        return Overrun, out, rest;
      }
      out := out + [b[pos + PREAMBLE..pos + PREAMBLE + n]];
      pos := pos + PREAMBLE + n;
    }
    rest := b[pos..];
    NextMessage(b, pos);
    status := Done;
  }

  // ---------------------------------------------------------------- over all arrivals

  class Receiver {
    var pending: seq<byte>
    var got: seq<seq<byte>>
    /** All bytes that have arrived. */
    ghost var arrived: seq<byte>

    constructor ()
      ensures Valid() && arrived == [] && got == []
    {
      pending, got, arrived := [], [], [];
    }

    /** The messages got are the complete frames of what has arrived. */
    ghost predicate Valid()
      reads this
    {
      WellFormed(arrived) && got == Frames(arrived) && pending == Remainder(arrived)
    }

    /** More bytes of a stream arrive, cut off anywhere.  The messages got are a beginning of those
        sent, and all of them once all has arrived, unless the bytes stop one to four short of the
        end of a frame. */
    method Receive(chunk: seq<byte>, ghost ms: seq<Message>) returns (status: Status)
      requires Valid() && arrived + chunk <= Stream(ms)
      modifies this
      ensures arrived == old(arrived) + chunk
      ensures status.Overrun? <==> Short(Remainder(arrived))
      ensures got == old(got) + Messages(old(pending) + chunk) && got == Frames(arrived) && got <= ms
      ensures pending == if status.Done? then Beyond(old(pending) + chunk) else old(pending) + chunk
      ensures !status.Overrun? ==> status.Done? && Valid()
      ensures !status.Overrun? && arrived == Stream(ms) ==> got == ms && pending == []
    {
      hide Frames, Remainder, WellFormed, Stream, Messages, Beyond;
      ghost var all := arrived + chunk;
      PartOfStream(ms, all);
      ReadOn(arrived, chunk);
      WellFormedOn(arrived, chunk);
      if all == Stream(ms) {
        StreamRoundTrip(ms);
        NothingLeft(ms);
      }
      arrived := all;
      var out, rest;
      WellFormedMessages(pending + chunk);
      status, out, rest := Process(pending + chunk);
      got, pending := got + out, rest;
    }
  }

  lemma {:induction false} WellFormedOn(a: seq<byte>, b: seq<byte>)
    requires WellFormed(a + b)
    ensures WellFormed(Remainder(a) + b)
    decreases |a|
  {
    if Complete(a) {
      PrefixSize(a, b);
      assert Complete(a + b) && Behind(a + b) == Behind(a) + b;
      WellFormedOn(Behind(a), b);
    }
  }
}
