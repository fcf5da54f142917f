/** The output buffer of a connection: framing, partial writes and writable events
    (src/connection_manager.c:460-584, 1233-1257). */
module OutBuffer {
  newtype byte = x: int | 0 <= x < 256

  const CHUNK := 1024
  const PREAMBLE := 4
  const MAX_MESSAGE := 0xFFFF_FFFF

  // ---------------------------------------------------------------- the stream of frames

  /** The size of a message in network byte order. */
  function Preamble(n: nat): (r: seq<byte>)
    requires n <= MAX_MESSAGE
    ensures |r| == PREAMBLE
  {
    [(n / 0x100_0000) as byte, (n / 0x1_0000 % 0x100) as byte, (n / 0x100 % 0x100) as byte, (n % 0x100) as byte]
  }

  function Size(b: seq<byte>): nat
    requires |b| >= PREAMBLE
  {
    b[0] as nat * 0x100_0000 + b[1] as nat * 0x1_0000 + b[2] as nat * 0x100 + b[3] as nat
  }

  type Message = m: seq<byte> | 0 < |m| <= MAX_MESSAGE witness [0]

  function Framed(m: Message): seq<byte> {
    Preamble(|m|) + m
  }

  function Stream(ms: seq<Message>): seq<byte> {
    if ms == [] then [] else Stream(ms[..|ms| - 1]) + Framed(ms[|ms| - 1])
  }

  lemma StreamNext(ms: seq<Message>, m: Message)
    ensures Stream(ms + [m]) == Stream(ms) + Framed(m)
  {
    assert (ms + [m])[..|ms|] == ms;
  }

  lemma PreambleSize(n: nat, rest: seq<byte>)
    requires n <= MAX_MESSAGE
    ensures Size(Preamble(n) + rest) == n
  {
    var p, b := Preamble(n), Preamble(n) + rest;
    assert p[0] as int == n / 0x100_0000;
    assert p[1] as int == n / 0x1_0000 % 0x100;
    assert p[2] as int == n / 0x100 % 0x100;
    assert p[3] as int == n % 0x100;
    hide Preamble;
    assert b[0] == p[0] && b[1] == p[1] && b[2] == p[2] && b[3] == p[3];
    LastByte(n, 0x100);
    LastByte(n, 0x1_0000);
  }

  /** One more byte of a number. */
  lemma LastByte(n: nat, unit: int)
    requires unit == 0x100 || unit == 0x1_0000
    ensures n / unit == n / (unit * 0x100) * 0x100 + n / unit % 0x100
  {
  }

  /** What a peer reads back from a stream: frames as long as they are complete. */
  function Frames(b: seq<byte>): seq<seq<byte>>
    decreases |b|
  {
    if |b| < PREAMBLE || Size(b) > |b| - PREAMBLE then []
    else [b[PREAMBLE..PREAMBLE + Size(b)]] + Frames(b[PREAMBLE + Size(b)..])
  }

  lemma FrameFirst(m: Message, rest: seq<byte>)
    ensures Frames(Framed(m) + rest) == [m] + Frames(rest)
  {
    var b := Framed(m) + rest;
    assert b == Preamble(|m|) + (m + rest);
    PreambleSize(|m|, m + rest);
    assert b[PREAMBLE..PREAMBLE + |m|] == m && b[PREAMBLE + |m|..] == rest;
  }

  lemma Associative(a: seq<byte>, b: seq<byte>, c: seq<byte>)
    ensures (a + b) + c == a + (b + c)
  {
  }

  lemma FrameBehind(sent: seq<byte>, waiting: seq<byte>, m: Message)
    ensures sent + ((waiting + Preamble(|m|)) + m) == (sent + waiting) + Framed(m)
  {
    hide Preamble;
  }

  lemma {:induction false} StreamFirst(ms: seq<Message>)
    requires ms != []
    ensures Stream(ms) == Framed(ms[0]) + Stream(ms[1..])
  {
    hide Framed;
    if |ms| == 1 {
      assert ms[..0] == [] && Stream(ms[1..]) == [];
    } else {
      var front, rest, end := ms[..|ms| - 1], ms[1..], ms[|ms| - 1];
      StreamFirst(front);
      assert front[1..] == rest[..|rest| - 1] && rest[|rest| - 1] == end;
      Associative(Framed(ms[0]), Stream(front[1..]), Framed(end));
    }
  }

  /** The stream gives back exactly the messages, in the order they were sent. */
  lemma {:induction false} StreamRoundTrip(ms: seq<Message>)
    ensures Frames(Stream(ms)) == ms
  {
    if ms != [] {
      assert ms == [ms[0]] + ms[1..];
      StreamFirst(ms);
      FrameFirst(ms[0], Stream(ms[1..]));
      StreamRoundTrip(ms[1..]);
    }
  }

  // ---------------------------------------------------------------- the buffer

  /** What `send` does: it takes some bytes, would block, or fails. */
  datatype Outcome = Takes(lessOne: nat) | WouldBlock | Error

  /** How much of n bytes a `send` takes that takes some. */
  function Taken(lessOne: nat, n: nat): nat {
    if lessOne < n then lessOne + 1 else n
  }

  /** How many of n bytes a socket takes, from the k-th `send` on, before one takes nothing. */
  function Accepted(socket: nat -> Outcome, k: nat, n: nat): (r: nat)
    ensures r <= n
    decreases n
  {
    if n == 0 || !socket(k).Takes? then 0
    else
      var w := Taken(socket(k).lessOne, n);
      w + Accepted(socket, k + 1, n - w)
  }

  /** In how many sends it does so. */
  function Sends(socket: nat -> Outcome, k: nat, n: nat): nat
    decreases n
  {
    if n == 0 || !socket(k).Takes? then 0
    else 1 + Sends(socket, k + 1, n - Taken(socket(k).lessOne, n))
  }

  /** What c sends may take together. */
  function Room(socket: nat -> Outcome, k: nat, c: nat): nat
    requires forall j :: k <= j < k + c ==> socket(j).Takes?
    decreases c
  {
    if c == 0 then 0 else socket(k).lessOne + 1 + Room(socket, k + 1, c - 1)
  }

  /** The socket takes what its outcomes have room for, up to n: the sends go on as long as they take
      something and bytes are left, no further. */
  lemma {:induction false} AcceptedMeans(socket: nat -> Outcome, k: nat, n: nat)
    ensures forall j :: k <= j < k + Sends(socket, k, n) ==> socket(j).Takes?
    ensures var room := Room(socket, k, Sends(socket, k, n)); Accepted(socket, k, n) == if room < n then room else n
    ensures Accepted(socket, k, n) < n ==> !socket(k + Sends(socket, k, n)).Takes?
    ensures Sends(socket, k, n) > 0 ==> Room(socket, k, Sends(socket, k, n) - 1) < n
    decreases n
  {
    if n > 0 && socket(k).Takes? {
      var rest := n - Taken(socket(k).lessOne, n);
      AcceptedMeans(socket, k + 1, rest);
      SendsNext(socket, k, n);
      var c := Sends(socket, k + 1, rest);
      RoomNext(socket, k, c + 1);
      RoomNext(socket, k, c);
      hide Accepted, Sends, Room;
    }
  }

  lemma RoomNext(socket: nat -> Outcome, k: nat, c: nat)
    requires forall j :: k <= j < k + c ==> socket(j).Takes?
    ensures Room(socket, k, c) == if c == 0 then 0 else socket(k).lessOne + 1 + Room(socket, k + 1, c - 1)
  {
  }

  /** A socket on which every `send` takes something takes all. */
  lemma AllAccepted(socket: nat -> Outcome, k: nat, n: nat)
    requires forall j :: socket(j).Takes?
    ensures Accepted(socket, k, n) == n
  {
    AcceptedMeans(socket, k, n);
  }

  /** A flush of the bytes b: what the socket takes is sent behind what was sent, the rest waits; the
      connection is to be closed if the last `send` failed, and watched if it would block. */
  ghost predicate Flushed(socket: nat -> Outcome, b: seq<byte>, was: seq<byte>, sent: seq<byte>, waiting: seq<byte>,
                          closing: bool, watched: bool, watching: bool) {
    var n, last := Accepted(socket, 0, |b|), socket(Sends(socket, 0, |b|));
    && sent == was + b[..n]
    && (closing <==> n < |b| && last.Error?)
    && (!closing ==> waiting == b[n..])
    && (watching <==> watched || (n < |b| && last.WouldBlock?))
  }

  lemma SendsStart(socket: nat -> Outcome, n: nat)
    ensures n == 0 ==> forall k :: Accepted(socket, k, n) == 0 && Sends(socket, k, n) == 0
  {
  }

  lemma SendsNext(socket: nat -> Outcome, k: nat, n: nat)
    requires n > 0
    ensures !socket(k).Takes? ==> Accepted(socket, k, n) == 0 && Sends(socket, k, n) == 0
    ensures socket(k).Takes? ==> var w := Taken(socket(k).lessOne, n);
              Accepted(socket, k, n) == w + Accepted(socket, k + 1, n - w) && Sends(socket, k, n) == 1 + Sends(socket, k + 1, n - w)
  {
  }

  /** Bytes a..b of a buffer are bytes of its part lo..hi. */
  lemma SliceOfSlice(w: seq<byte>, lo: nat, hi: nat, a: nat, b: nat)
    requires lo <= a <= b <= hi <= |w|
    ensures w[a..b] == w[lo..hi][a - lo..b - lo]
  {
    var part := w[lo..hi];
    forall i | 0 <= i < b - a ensures w[a..b][i] == part[a - lo..b - lo][i] {
      assert part[a - lo + i] == w[a + i];
    }
  }

  /** A flush of b that has sent n bytes in some calls. */
  ghost predicate SoFar(socket: nat -> Outcome, b: seq<byte>, was: seq<byte>, sent: seq<byte>, n: nat, calls: nat) {
    && n <= |b| && sent == was + b[..n]
    && Accepted(socket, 0, |b|) == n + Accepted(socket, calls, |b| - n)
    && Sends(socket, 0, |b|) == calls + Sends(socket, calls, |b| - n)
  }

  lemma SoFarNothing(socket: nat -> Outcome, b: seq<byte>, was: seq<byte>)
    ensures SoFar(socket, b, was, was, 0, 0)
  {
    assert b[..0] == [];
  }

  lemma SoFarMore(socket: nat -> Outcome, b: seq<byte>, was: seq<byte>, sent: seq<byte>, n: nat, calls: nat, written: nat)
    requires SoFar(socket, b, was, sent, n, calls) && n < |b|
    requires socket(calls).Takes? && written == Taken(socket(calls).lessOne, |b| - n)
    ensures SoFar(socket, b, was, sent + b[n..n + written], n + written, calls + 1)
  {
    hide Accepted, Sends;
    SendsNext(socket, calls, |b| - n);
    assert b[..n + written] == b[..n] + b[n..n + written];
  }

  lemma SoFarAll(socket: nat -> Outcome, b: seq<byte>, was: seq<byte>, sent: seq<byte>, n: nat, calls: nat, watched: bool)
    requires SoFar(socket, b, was, sent, n, calls) && n == |b|
    ensures Flushed(socket, b, was, sent, [], false, watched, watched) && sent == was + b
  {
    SendsStart(socket, |b| - n);
    hide Accepted, Sends;
    assert b[n..] == [] && b[..n] == b;
  }

  lemma SoFarStopped(socket: nat -> Outcome, b: seq<byte>, was: seq<byte>, sent: seq<byte>, n: nat, calls: nat, watched: bool)
    requires SoFar(socket, b, was, sent, n, calls) && n < |b| && !socket(calls).Takes?
    ensures socket(calls).WouldBlock? ==> Flushed(socket, b, was, sent, b[n..], false, watched, true)
    ensures socket(calls).Error? ==> forall waiting :: Flushed(socket, b, was, sent, waiting, true, watched, watched)
    ensures sent + b[n..] == was + b
  {
    hide Accepted, Sends;
    SendsNext(socket, calls, |b| - n);
    assert b == b[..n] + b[n..];
  }

  /** If every `send` takes something, all is sent. */
  lemma FlushedFreely(socket: nat -> Outcome, b: seq<byte>, was: seq<byte>, sent: seq<byte>, waiting: seq<byte>,
                      closing: bool, watched: bool, watching: bool)
    requires Flushed(socket, b, was, sent, waiting, closing, watched, watching) && forall k :: socket(k).Takes?
    ensures !closing && sent == was + b
  {
    hide Accepted, Sends;
    AllAccepted(socket, 0, |b|);
    assert b[..|b|] == b;
  }

  class Buffer {
    var data: array<byte>
    var start: nat
    var pos: nat
    var closeRequested: bool
    /** The descriptor is watched for being writable. */
    var watching: bool
    ghost var sent: seq<byte>
    ghost var messages: seq<Message>

    constructor ()
      ensures Valid() && fresh(data) && messages == [] && sent == [] && !closeRequested
    {
      data := new byte[0];
      start, pos, closeRequested, watching := 0, 0, false, false;
      sent, messages := [], [];
    }

    /** Bytes sent and bytes waiting make up the stream of all messages, and waiting bytes have a
        writable event to come; a connection that is to be closed makes no such promise. */
    ghost predicate Valid()
      reads this, data
    {
      && start <= pos <= data.Length
      && (!closeRequested ==> sent + data[start..pos] == Stream(messages) && (start < pos ==> watching))
    }

    /** `cm_conn_buffer_expand`. */
    method Expand(requested: nat)
      requires pos <= data.Length
      modifies this`data
      ensures pos + requested <= data.Length
      ensures data.Length == old(data.Length) + if old(data.Length) - pos >= requested then 0 else if requested < CHUNK then CHUNK else requested
      ensures data[..pos] == old(data[..pos]) && (if old(data.Length) - pos >= requested then data == old(data) else fresh(data))
    {
      if data.Length - pos < requested {
        var space := if requested < CHUNK then CHUNK else requested;
        var was := data;
        var bigger := new byte[was.Length + space];
        var i := 0;
        while i < was.Length
          invariant 0 <= i <= was.Length
          invariant bigger[..i] == was[..i]
        {
          bigger[i] := was[i];
          i := i + 1;
        }
        assert bigger[..pos] == bigger[..i][..pos] == was[..pos];
        data := bigger;
      }
    }

    /** `cm_conn_out_buff_flush`; `socket` gives the outcome of each `send`.  What the socket takes is
        sent and the rest waits; the descriptor is watched if the last `send` would block, and the
        connection is to be closed, with the marks as they were, if it failed. */
    method Flush(socket: nat -> Outcome)
      requires start <= pos <= data.Length && !closeRequested && sent + data[start..pos] == Stream(messages)
      modifies `start, `pos, `closeRequested, `watching, `sent
      ensures Valid()
      ensures Flushed(socket, old(data[start..pos]), old(sent), sent, data[start..pos], closeRequested, old(watching), watching)
      ensures closeRequested ==> start == old(start) && pos == old(pos)
    {
      hide Stream, Flushed, SoFar;
      var size, at := pos, start;
      ghost var lo, b := start, data[start..pos];
      SoFarNothing(socket, b, sent);
      if size == at {
        SoFarAll(socket, b, sent, sent, 0, 0, watching);
        return;
      }
      var calls := 0;
      while at < size
        invariant start == lo <= at <= size == pos == old(pos) && b == data[lo..size]
        invariant !closeRequested && watching == old(watching) && SoFar(socket, b, old(sent), sent, at - lo, calls)
        decreases size - at
      {
        match socket(calls) {
        case Takes(k) =>
          var written := if k < size - at then k + 1 else size - at;
          SoFarMore(socket, b, old(sent), sent, at - lo, calls, written);
          SliceOfSlice(data[..], lo, size, at, at + written);
          sent := sent + data[at..at + written];
          at := at + written;
        case WouldBlock =>
          SoFarStopped(socket, b, old(sent), sent, at - lo, calls, watching);
          SliceOfSlice(data[..], lo, size, at, size);
          start := at;
          watching := true;
          return;
        case Error =>
          SoFarStopped(socket, b, old(sent), sent, at - lo, calls, watching);
          closeRequested := true;
          return;
        }
        calls := calls + 1;
      }
      SoFarAll(socket, b, old(sent), sent, at - lo, calls, watching);
      pos := 0;
      start := 0;
    }

    /** The frame of a message goes behind the bytes waiting (564-575). */
    method Append(msg: Message)
      requires Valid() && !closeRequested
      modifies `data, `pos, `messages, data
      ensures start <= pos <= data.Length && (data == old(data) || fresh(data))
      ensures messages == old(messages) + [msg] && sent + data[start..pos] == Stream(messages)
      ensures data[start..pos] == old(data[start..pos]) + Framed(msg)
    {
      hide Stream, Preamble;
      ghost var waiting := data[start..pos];
      Expand(PREAMBLE + |msg|);
      assert data[start..pos] == data[..pos][start..] == waiting;
      Store(Preamble(|msg|));
      Store(msg);
      FrameBehind(sent, waiting, msg);
      StreamNext(messages, msg);
      messages := messages + [msg];
    }

    /** `cm_msg_send_connection` up to the close of the connection. */
    method Send(msg: seq<byte>, socket: nat -> Outcome) returns (ok: bool)
      requires Valid() && !closeRequested
      modifies this, data
      ensures Valid() && (data == old(data) || fresh(data))
      ensures ok <==> 0 < |msg| <= MAX_MESSAGE
      ensures messages == if ok then old(messages) + [msg] else old(messages)
      ensures ok ==> Flushed(socket, old(data[start..pos]) + Framed(msg), old(sent), sent, data[start..pos], closeRequested, old(watching), watching)
      ensures ok && (forall k :: socket(k).Takes?) ==> !closeRequested && sent == Stream(messages)
      ensures !ok ==> data == old(data) && data[..] == old(data[..]) && start == old(start) && pos == old(pos)
      ensures !ok ==> sent == old(sent) && !closeRequested && watching == old(watching)
    {
      hide Stream, Framed, Flushed;
      ok := 0 < |msg| <= MAX_MESSAGE;
      if ok {
        Append(msg);
        ghost var b := data[start..pos];
        Flush(socket);
        if forall k :: socket(k).Takes? {
          FlushedFreely(socket, b, old(sent), sent, data[start..pos], closeRequested, old(watching), watching);
        }
      }
    }

    /** Bytes behind those waiting. */
    method Store(b: seq<byte>)
      requires start <= pos && pos + |b| <= data.Length
      modifies this`pos, data
      ensures pos == old(pos) + |b| && data[start..pos] == old(data[start..pos]) + b
    {
      var i := 0;
      ghost var end := pos;
      while i < |b|
        invariant 0 <= i <= |b| && pos == end
        invariant data[start..end + i] == old(data[start..pos]) + b[..i]
      {
        data[pos + i] := b[i];
        assert data[start..end + i + 1] == data[start..end + i] + [b[i]];
        i := i + 1;
      }
      pos := pos + |b|;
    }

    /** `cm_conn_write_cb`: the descriptor is writable. */
    method Writable(socket: nat -> Outcome)
      requires Valid() && !closeRequested
      modifies this
      ensures Valid() && messages == old(messages) && data == old(data)
      ensures Flushed(socket, old(data[start..pos]), old(sent), sent, data[start..pos], closeRequested, false, watching)
      ensures (forall k :: socket(k).Takes?) ==> !closeRequested && sent == Stream(messages)
    {
      hide Stream, Flushed;
      watching := false;
      ghost var b := data[start..pos];
      Flush(socket);
      if forall k :: socket(k).Takes? {
        FlushedFreely(socket, b, old(sent), sent, data[start..pos], closeRequested, false, watching);
      }
    }
  }
}
