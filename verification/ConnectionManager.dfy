/** Sessions on connections, and the requests of a session on their way to the Request Processor
    (src/connection_manager.c, src/cm_session_manager.c). */
module ConnectionManager {
  import opened DepGraph

  datatype Cid = Cid(fd: nat)

  /** A session: its connection, the requests outstanding in the Request Processor, whether its stop
      is deferred, and the requests waiting. */
  datatype Sess<M> = Sess(conn: Option<Cid>, reqCnt: nat, stopRequested: bool, queue: seq<M>)

  const MAX_ATTEMPTS := 100

  // ---------------------------------------------------------------- the invariant

  /** A session is in the list of a connection, once, exactly when it points to it; ids are not
      zero. */
  ghost predicate Listed<M(!new)>(sessions: map<nat, Sess<M>>, conns: map<Cid, seq<nat>>) {
    && 0 !in sessions
    && (forall c :: c in conns ==> Distinct(conns[c]))
    && (forall c, id :: c in conns && id in conns[c] ==> id in sessions && sessions[id].conn == Some(c))
    && (forall id :: id in sessions && sessions[id].conn.Some? ==> sessions[id].conn.value in conns && id in conns[sessions[id].conn.value])
  }

  /** Only a session with something outstanding may wait for its stop, and only such a session may
      have lost its connection. */
  ghost predicate Stopping<M>(x: Sess<M>) {
    && (x.stopRequested ==> x.reqCnt > 0)
    && (x.conn.None? ==> x.stopRequested)
  }

  /** What happened to the requests of a session: `received` came from the client, `forwarded` went to
      the Request Processor, `outstanding` of them are not answered.  One that was waiting was
      `refused` by the Request Processor while others waited; one was forwarded at once though
      others waited: they are `overtaken`. */
  datatype Story<M> = Story(received: seq<M>, forwarded: seq<M>, outstanding: nat, refused: bool, overtaken: bool)

  /** Forwarded requests are a prefix of those received, in order, and the queue is the rest. */
  ghost predicate Ordered<M>(x: Sess<M>, h: Story<M>) {
    h.received == h.forwarded + x.queue
  }

  /** Requests wait though none is outstanding. */
  predicate Stuck<M>(x: Sess<M>) {
    x.reqCnt == 0 && x.queue != []
  }

  /** One request is outstanding at most, and until some are overtaken all are in order; none is
      overtaken unless one was refused. */
  ghost predicate InOrder<M>(x: Sess<M>, h: Story<M>) {
    x.reqCnt == h.outstanding <= 1 && (!h.overtaken ==> Ordered(x, h)) && (h.overtaken ==> h.refused)
  }

  ghost predicate Scheduled<M(!new)>(sessions: map<nat, Sess<M>>, stories: map<nat, Story<M>>) {
    sessions.Keys == stories.Keys && forall id :: id in sessions ==> Stopping(sessions[id]) && InOrder(sessions[id], stories[id])
  }

  /** Requests wait with none outstanding only once one was refused. */
  ghost predicate Served<M(!new)>(sessions: map<nat, Sess<M>>, stories: map<nat, Story<M>>) {
    forall id :: id in sessions && id in stories && Stuck(sessions[id]) ==> stories[id].refused
  }

  /** The first occurrence is taken out of the list. */
  function RemoveId(l: seq<nat>, id: nat): (r: seq<nat>)
    ensures forall x :: x in r ==> x in l
    ensures forall x :: x in l && x != id ==> x in r
    ensures |r| <= |l| && (id in l ==> |r| < |l|)
  {
    if l == [] then [] else if l[0] == id then l[1..] else [l[0]] + RemoveId(l[1..], id)
  }

  lemma {:induction false} RemoveDistinct(l: seq<nat>, id: nat)
    requires Distinct(l)
    ensures Distinct(RemoveId(l, id)) && id !in RemoveId(l, id)
  {
    if l != [] {
      assert l[0] !in l[1..];
      if l[0] != id { RemoveDistinct(l[1..], id); }
    }
  }

  /** The list without the session at k, found by the walk of `sm_connection_remove_session`
      (205-242). */
  method Unlink(l: seq<nat>, id: nat) returns (r: seq<nat>)
    ensures r == RemoveId(l, id)
  {
    hide RemoveId;
    var k := 0;
    while k < |l| && l[k] != id
      invariant 0 <= k <= |l|
      invariant id !in l[..k]
    {
      k := k + 1;
    }
    if k == |l| {
      assert l[..k] == l;
      RemoveIdNone(l, id);
      r := l;
    } else {
      RemoveIdAt(l, id, k);
      r := l[..k] + l[k + 1..];
    }
  }

  lemma {:induction false} RemoveIdNone(l: seq<nat>, id: nat)
    requires id !in l
    ensures RemoveId(l, id) == l
  {
    if l != [] {
      RemoveIdNone(l[1..], id);
    }
  }

  lemma {:induction false} RemoveIdAt(l: seq<nat>, id: nat, k: nat)
    requires k < |l| && l[k] == id && id !in l[..k]
    ensures RemoveId(l, id) == l[..k] + l[k + 1..]
  {
    if k > 0 {
      var rest := l[1..];
      assert l[0] != id && rest[..k - 1] == l[..k][1..] && rest[k..] == l[k + 1..];
      RemoveIdAt(rest, id, k - 1);
      assert l[..k] == [l[0]] + rest[..k - 1];
    }
  }

  /** What the Request Processor sends out: the response to a request, a request of its own, or a
      notification. */
  datatype OutType = Response | Request | Notification

  /** What became of a message sent to a client (547-584): written or buffered, not taken because of
      its size, or lost with the connection, which is closed at once. */
  datatype Sent = Taken | Rejected | Closing

  function NonZero(rands: seq<nat>): nat {
    if rands == [] then 0 else NonZero(rands[..|rands| - 1]) + if rands[|rands| - 1] != 0 then 1 else 0
  }

  /** Number k is the first that is neither zero nor in use, and within the attempts allowed. */
  ghost predicate Drawn(rands: seq<nat>, k: nat, used: set<nat>)
    requires k < |rands|
  {
    && rands[k] != 0 && rands[k] !in used && NonZero(rands[..k + 1]) <= MAX_ATTEMPTS
    && forall j :: 0 <= j < k ==> rands[j] == 0 || rands[j] in used
  }

  lemma NonZeroNext(rands: seq<nat>, k: nat)
    requires k < |rands|
    ensures NonZero(rands[..k + 1]) == NonZero(rands[..k]) + if rands[k] != 0 then 1 else 0
  {
    assert rands[..k + 1][..k] == rands[..k];
  }

  lemma {:induction false} NonZeroGrows(rands: seq<nat>, k: nat, n: nat)
    requires k <= n <= |rands|
    ensures NonZero(rands[..k]) <= NonZero(rands[..n])
    decreases n
  {
    if k < n {
      NonZeroGrows(rands, k, n - 1);
      NonZeroNext(rands, n - 1);
    }
  }

  /** Once there were too many attempts, no later number counts. */
  lemma NoneAfter(rands: seq<nat>, k: nat, used: set<nat>)
    requires k < |rands| && NonZero(rands[..k + 1]) > MAX_ATTEMPTS
    requires forall j :: 0 <= j < k ==> rands[j] == 0 || rands[j] in used
    ensures forall n :: 0 <= n < |rands| ==> !Drawn(rands, n, used)
  {
    forall n | k <= n < |rands| ensures !Drawn(rands, n, used) {
      NonZeroGrows(rands, k + 1, n + 1);
    }
  }

  /** A session was stopped in the Request Processor, with so many requests outstanding. */
  datatype Stop = Stop(id: nat, outstanding: nat)

  /** The stops of the idle sessions in a list. */
  ghost function IdleStops<M>(l: seq<nat>, sessions: map<nat, Sess<M>>): seq<Stop> {
    if l == [] then []
    else (if l[0] in sessions && sessions[l[0]].reqCnt == 0 then [Stop(l[0], 0)] else []) + IdleStops(l[1..], sessions)
  }

  lemma {:induction false} IdleStopsMean<M>(l: seq<nat>, sessions: map<nat, Sess<M>>)
    ensures forall t :: t in IdleStops(l, sessions) <==> t.outstanding == 0 && t.id in l && t.id in sessions && sessions[t.id].reqCnt == 0
    ensures Distinct(l) ==> Distinct(IdleStops(l, sessions))
  {
    if l != [] {
      IdleStopsMean(l[1..], sessions);
      assert l == [l[0]] + l[1..];
      var rest := IdleStops(l[1..], sessions);
      if Distinct(l) {
        assert l[0] !in l[1..] && Distinct(l[1..]);
        assert forall i :: 0 <= i < |rest| ==> rest[i] in rest;
      }
    }
  }

  /** A session that is not in the list does not matter. */
  lemma {:induction false} IdleElsewhere<M>(l: seq<nat>, a: map<nat, Sess<M>>, b: map<nat, Sess<M>>, id: nat)
    requires id !in l && forall k :: k != id ==> (k in a <==> k in b) && (k in a ==> a[k] == b[k])
    ensures IdleStops(l, a) == IdleStops(l, b)
  {
    if l != [] { IdleElsewhere(l[1..], a, b, id); }
  }

  /** Nor does a mark. */
  lemma {:induction false} IdleMarked<M>(l: seq<nat>, a: map<nat, Sess<M>>, id: nat, x: Sess<M>)
    requires id in a && x.reqCnt == a[id].reqCnt
    ensures IdleStops(l, a[id := x]) == IdleStops(l, a)
  {
    if l != [] { IdleMarked(l[1..], a, id, x); }
  }

  /** The session once a message for it came out of the Request Processor. */
  ghost function Answer<M>(ty: OutType, x: Sess<M>): Sess<M> {
    if ty == Response && x.reqCnt > 0 then x.(reqCnt := x.reqCnt - 1) else x
  }

  class CmContext<M(!new)> {
    var sessions: map<nat, Sess<M>>
    var conns: map<Cid, seq<nat>>
    /** Messages sent on each connection. */
    var delivered: map<Cid, seq<M>>
    ghost var stories: map<nat, Story<M>>
    /** Sessions stopped in the Request Processor. */
    ghost var stops: seq<Stop>

    constructor ()
      ensures Valid() && sessions == map[] && conns == map[]
    {
      sessions, conns, delivered, stories, stops := map[], map[], map[], map[], [];
    }

    /** The Request Processor never stops a session with a request outstanding. */
    ghost predicate Linked()
      reads this
    {
      && Listed(sessions, conns) && Scheduled(sessions, stories)
      && delivered.Keys == conns.Keys && (forall i :: 0 <= i < |stops| ==> stops[i].outstanding == 0)
    }

    ghost predicate Valid()
      reads this
    {
      Linked() && Served(sessions, stories)
    }

    /** `sm_connection_start`. */
    method StartConnection(c: Cid)
      requires Valid() && c !in conns
      modifies `conns, `delivered
      ensures Valid() && conns == old(conns)[c := []]
    {
      hide Scheduled;
      conns := conns[c := []];
      delivered := delivered[c := []];
    }

    /** `sm_session_create` (385-481): `rands` are the numbers drawn.  A session is created with the
        first that is neither zero nor in use, within the attempts allowed. */
    method CreateSession(c: Cid, rands: seq<nat>) returns (r: Option<nat>)
      requires Valid() && c in conns
      modifies `sessions, `conns, `stories
      ensures Valid()
      ensures r.Some? <==> exists k :: 0 <= k < |rands| && Drawn(rands, k, old(sessions).Keys)
      ensures r.Some? ==> r.value != 0 && r.value !in old(sessions)
      ensures r.Some? ==> exists k :: 0 <= k < |rands| && Drawn(rands, k, old(sessions).Keys) && r.value == rands[k]
      ensures r.Some? ==> sessions == old(sessions)[r.value := Sess(Some(c), 0, false, [])] && conns == old(conns)[c := old(conns)[c] + [r.value]]
      ensures r.None? ==> sessions == old(sessions) && conns == old(conns)
      ensures stories == if r.Some? then old(stories)[r.value := Story([], [], 0, false, false)] else old(stories)
    {
      var id := FreshId(rands);
      if id.None? {
        return None;
      }
      r := id;
      CreateListed(sessions, conns, c, id.value);
      sessions := sessions[id.value := Sess(Some(c), 0, false, [])];
      conns := conns[c := conns[c] + [id.value]];
      stories := stories[id.value := Story([], [], 0, false, false)];
    }

    /** The loop that draws session ids (439-455): the first number that will do, unless too many were
        drawn before it. */
    method FreshId(rands: seq<nat>) returns (r: Option<nat>)
      ensures r.Some? ==> exists k :: 0 <= k < |rands| && Drawn(rands, k, sessions.Keys) && r.value == rands[k]
      ensures r.None? ==> forall k :: 0 <= k < |rands| ==> !Drawn(rands, k, sessions.Keys)
    {
      var attempts, k := 0, 0;
      while k < |rands|
        invariant 0 <= k <= |rands| && attempts == NonZero(rands[..k]) <= MAX_ATTEMPTS
        invariant forall j :: 0 <= j < k ==> rands[j] == 0 || rands[j] in sessions
      {
        var id := rands[k];
        NonZeroNext(rands, k);
        if id != 0 {
          attempts := attempts + 1;
          if attempts > MAX_ATTEMPTS {
            NoneAfter(rands, k, sessions.Keys);
            return None;
          }
          if id !in sessions {
            return Some(id);
          }
        }
        k := k + 1;
      }
      r := None;
    }

    /** `sm_session_drop` (484-505). */
    method DropSession(id: nat)
      requires Listed(sessions, conns) && id in sessions
      modifies `sessions, `conns, `stories
      ensures Listed(sessions, conns) && sessions == old(sessions) - {id} && stories == old(stories) - {id} && conns.Keys == old(conns.Keys)
      ensures conns == match old(sessions)[id].conn { case None => old(conns) case Some(c) => old(conns)[c := RemoveId(old(conns)[c], id)] }
    {
      hide Listed, RemoveId;
      DropListed(sessions, conns, id);
      if sessions[id].conn.Some? {
        var c := sessions[id].conn.value;
        var l := Unlink(conns[c], id);
        conns := conns[c := l];
      }
      sessions := sessions - {id};
      stories := stories - {id};
    }

    /** `rp_session_stop`: what is outstanding then is on record. */
    ghost method RpStop(id: nat)
      requires id in stories
      modifies `stops
      ensures stops == old(stops) + [Stop(id, stories[id].outstanding)]
    {
      stops := stops + [Stop(id, stories[id].outstanding)];
    }

    /** A request that goes to the Request Processor (`cm_req_process`, 868-919): at once if nothing is
        outstanding, else behind those waiting; without a session it is refused.  `accepted` is the
        result of `rp_msg_process`.  Requests that were in order stay so exactly when the new one
        waits its turn, or is not to be told from those waiting. */
    method ForwardRequest(id: nat, msg: M, accepted: bool) returns (ok: bool)
      requires Valid()
      modifies `sessions, `stories
      ensures Valid() && (ok <==> id in old(sessions))
      ensures !ok ==> sessions == old(sessions) && stories == old(stories)
      ensures ok ==> id in old(stories) && var x, h, cnt := old(sessions)[id], old(stories)[id], if accepted then 1 else 0;
        && sessions == old(sessions)[id := if x.reqCnt > 0 then x.(queue := x.queue + [msg]) else x.(reqCnt := cnt)]
        && stories == old(stories)[id := if x.reqCnt > 0 then h.(received := h.received + [msg])
                                         else h.(received := h.received + [msg], forwarded := h.forwarded + [msg], outstanding := cnt,
                                                 overtaken := h.overtaken || x.queue != [])]
        && (Ordered(x, h) ==> (Ordered(sessions[id], stories[id]) <==> x.reqCnt > 0 || x.queue + [msg] == [msg] + x.queue))
    {
      hide Linked, Served;
      ok := id in sessions;
      if !ok {
        return;
      }
      SessionAt(id);
      var x := sessions[id];
      ghost var h := stories[id];
      if Ordered(x, h) { StillOrdered(x, h, msg); }
      if x.reqCnt > 0 {
        Update(id, x.(queue := x.queue + [msg]), h.(received := h.received + [msg]));
      } else {
        var cnt := if accepted then 1 else 0;
        Update(id, x.(reqCnt := cnt), h.(received := h.received + [msg], forwarded := h.forwarded + [msg], outstanding := cnt,
                                         overtaken := h.overtaken || x.queue != []));
      }
    }

    lemma SessionAt(id: nat)
      requires Valid() && id in sessions
      ensures id in stories && Stopping(sessions[id]) && InOrder(sessions[id], stories[id])
      ensures Stuck(sessions[id]) ==> stories[id].refused
    {
    }

    /** A session changes, keeping its connection. */
    method Update(id: nat, x: Sess<M>, ghost h: Story<M>)
      requires Linked() && id in sessions && x.conn == sessions[id].conn && Stopping(x) && InOrder(x, h)
      modifies `sessions, `stories
      ensures Linked() && sessions == old(sessions)[id := x] && stories == old(stories)[id := h]
      ensures old(Served(sessions, stories)) && (Stuck(x) ==> h.refused) ==> Served(sessions, stories)
    {
      hide Distinct, Stopping, InOrder, Stuck;
      sessions := sessions[id := x];
      stories := stories[id := h];
    }

    /** `cm_msg_send_connection` (547-584), for a connection that is there. */
    method Deliver(c: Cid, msg: M, sent: Sent)
      requires Linked() && c in conns
      modifies `sessions, `conns, `stories, `delivered, `stops
      ensures Linked() && (old(Served(sessions, stories)) ==> Served(sessions, stories))
      ensures !sent.Closing? ==> sessions == old(sessions) && conns == old(conns) && stories == old(stories) && stops == old(stops)
      ensures c in old(delivered) && delivered == match sent {
                case Taken => old(delivered)[c := old(delivered)[c] + [msg]] case Rejected => old(delivered) case Closing => old(delivered) - {c} }
      ensures sent.Closing? ==> conns == old(conns) - {c} && Lost(c, old(sessions), sessions) && KeptStories(old(stories), stories, sessions)
      ensures sent.Closing? ==> stops == old(stops) + IdleStops(old(conns)[c], old(sessions))
    {
      hide Listed, Scheduled, Served, Lost;
      match sent {
        case Taken => delivered := delivered[c := delivered[c] + [msg]];
        case Rejected =>
        case Closing => CloseConnection(c);
      }
    }

    /** `cm_session_stop_req_process` (697-769): a busy session is only marked.  `stale` tells that the
        session is dropped again after the send dropped it with its connection. */
    method StopRequest(id: nat, requested: nat, stopOk: bool, response: M, sent: Sent) returns (stale: bool)
      requires Valid() && id in sessions && sessions[id].conn.Some?
      modifies `sessions, `conns, `stories, `delivered, `stops
      ensures Valid()
      ensures stale <==> requested == id && old(sessions)[id].reqCnt == 0 && stopOk && sent.Closing?
      ensures !sent.Closing? ==>
                sessions == if requested != id then old(sessions)
                            else if old(sessions)[id].reqCnt > 0 then old(sessions)[id := old(sessions)[id].(stopRequested := true)]
                            else if stopOk && sent.Taken? then old(sessions) - {id} else old(sessions)
      ensures !sent.Closing? && requested == id && old(sessions)[id].reqCnt > 0 ==> stories == old(stories)
      ensures !sent.Closing? ==> stops == old(stops) + if requested == id && old(sessions)[id].reqCnt == 0 then [Stop(id, 0)] else []
      ensures var c := old(sessions)[id].conn.value; c in old(delivered) && delivered == match sent {
                case Taken => old(delivered)[c := old(delivered)[c] + [response]] case Rejected => old(delivered) case Closing => old(delivered) - {c} }
      ensures sent.Closing? ==> Lost(old(sessions)[id].conn.value, old(sessions), sessions) && conns == old(conns) - {old(sessions)[id].conn.value}
      // an idle session is then stopped twice
      ensures sent.Closing? ==> var c := old(sessions)[id].conn.value;
        && c in old(conns)
        && stops == old(stops) + (if requested == id && old(sessions)[id].reqCnt == 0 then [Stop(id, 0)] else []) + IdleStops(old(conns)[c], old(sessions))
    {
      hide Listed, Stopping, InOrder, Served, Scheduled, Lost, KeptStories;
      SessionAt(id);
      var x := sessions[id];
      var drop := requested == id;
      stale := false;
      ConnectionThere(sessions, conns, id);
      ghost var marked := drop && x.reqCnt > 0;
      if drop {
        if x.reqCnt > 0 {
          MarkedStop(x, stories[id]);
          IdleMarked(conns[x.conn.value], sessions, id, x.(stopRequested := true));
          Update(id, x.(stopRequested := true), stories[id]);
          SameMap(old(stories), id);
          drop := false;
        } else {
          IdleOutstanding(x, stories[id]);
          RpStop(id);
          drop := stopOk;
        }
      }
      Deliver(x.conn.value, response, sent);
      if sent.Closing? {
        LostMarked(x.conn.value, old(sessions), id, marked, sessions);
        LostBusy(x.conn.value, old(sessions), id, sessions);
      }
      if drop && !sent.Rejected? {
        if id !in sessions {
          return true;
        }
        DropScheduled(sessions, stories, id, stories[id]);
        DropServed(sessions, stories, id);
        DropSession(id);
      }
    }

    /** `cm_out_msg_process` (1709-1777).  A response counts down the requests outstanding if there are
        any; nothing is ever sent on a connection that is gone.  `stale` tells that the session is used
        after the send dropped it with its connection. */
    method OutMessage(ty: OutType, id: nat, msg: M, accepted: bool, sent: Sent) returns (found: bool, stale: bool)
      requires Valid()
      modifies `sessions, `conns, `stories, `delivered, `stops
      ensures Valid() && (found <==> id in old(sessions))
      ensures !found ==> sessions == old(sessions) && delivered == old(delivered) && !stale
      ensures found ==> (stale <==> sent.Closing? && !old(sessions)[id].stopRequested && Answer(ty, old(sessions)[id]).reqCnt == 0)
      ensures found && (old(sessions)[id].stopRequested || !sent.Closing?) ==>
        id in old(stories) && var x, h := Answer(ty, old(sessions)[id]), old(stories)[id];
        if x.reqCnt == 0 && x.stopRequested then sessions == old(sessions) - {id} && stops == old(stops) + [Stop(id, 0)]
        else
          && stops == old(stops) && id in sessions && id in stories
          && stories[id].received == h.received && stories[id].overtaken == h.overtaken
          && (if x.reqCnt == 0 && x.queue != [] then
                && sessions == old(sessions)[id := x.(queue := x.queue[1..], reqCnt := if accepted then 1 else 0)]
                && stories[id].forwarded == h.forwarded + [x.queue[0]]
              else sessions == old(sessions)[id := x] && stories[id].forwarded == h.forwarded)
          // whether requests are left waiting with none outstanding
          && (Stuck(sessions[id]) <==> x.reqCnt == 0 && |x.queue| > 1 && !accepted)
      ensures found && !old(sessions)[id].stopRequested && sent.Closing? ==> old(sessions)[id].conn.Some? && var c := old(sessions)[id].conn.value;
        && c in old(conns) && conns == old(conns) - {c}
        && Lost(c, old(sessions)[id := Answer(ty, old(sessions)[id])], sessions)
        && stops == old(stops) + IdleStops(old(conns)[c], old(sessions)[id := Answer(ty, old(sessions)[id])])
      ensures found && old(sessions)[id].stopRequested ==> delivered == old(delivered)
      ensures found && !old(sessions)[id].stopRequested ==> old(sessions)[id].conn.Some? && var c := old(sessions)[id].conn.value;
        c in old(delivered) && delivered == match sent {
          case Taken => old(delivered)[c := old(delivered)[c] + [msg]] case Rejected => old(delivered) case Closing => old(delivered) - {c} }
    {
      hide Linked, Served, InOrder, Lost, KeptStories;
      found, stale := id in sessions, false;
      if !found {
        return;
      }
      SessionAt(id);
      var x := sessions[id];
      ghost var h := stories[id];
      if ty == Response && x.reqCnt > 0 {
        x := x.(reqCnt := x.reqCnt - 1);
        h := h.(outstanding := h.outstanding - 1);
      }
      Answered(sessions[id], stories[id], x, h);
      if x.stopRequested {
        StopOrGoOn(id, x, h);
        return;
      }
      Update(id, x, h);
      ConnectionOf(id);
      ghost var st, told := sessions, stories;
      Deliver(x.conn.value, msg, sent);
      if sent.Closing? {
        LostBusy(x.conn.value, st, id, sessions);
        OthersServed(old(sessions), old(stories), st, told, id, sessions, stories);
        stale := id !in sessions;
        return;
      }
      if x.reqCnt == 0 && x.queue != [] {
        var cnt := if accepted then 1 else 0;
        Dequeued(x, h, cnt);
        Update(id, x.(queue := x.queue[1..], reqCnt := cnt), Advanced(x, h, cnt));
        ServedAgain(old(sessions), old(stories), id, sessions, stories);
      }
    }

    /** The Request Processor answers, refuses the request that waited longest, and the client sends
        another one, which goes on at once: it overtakes those that wait. */
    method OvertakingRun(id: nat, response: M, msg: M)
      requires Valid() && id in sessions && id in stories && !sessions[id].stopRequested && sessions[id].reqCnt == 1
      requires |sessions[id].queue| > 1 && sessions[id].queue[1] != msg && Ordered(sessions[id], stories[id])
      modifies `sessions, `conns, `stories, `delivered, `stops
      ensures Valid() && id in sessions && id in stories && sessions[id].queue == old(sessions)[id].queue[1..]
      ensures stories[id].received == old(stories)[id].received + [msg]
      ensures stories[id].forwarded == old(stories)[id].forwarded + [old(sessions)[id].queue[0], msg]
      // what was forwarded is not a beginning of what was received
      ensures !(stories[id].forwarded <= stories[id].received)
    {
      hide Linked, Served;
      SessionAt(id);
      ghost var h, q := stories[id], sessions[id].queue;
      var found, stale := OutMessage(Response, id, response, false, Taken);
      var ok := ForwardRequest(id, msg, true);
      assert stories[id].forwarded == h.forwarded + [q[0], msg];
      assert h.received == h.forwarded + q;
      assert stories[id].received[|h.forwarded| + 1] == q[1] && stories[id].forwarded[|h.forwarded| + 1] == msg;
    }

    /** A session marked for its stop is dropped once nothing is outstanding (1760-1764). */
    method StopOrGoOn(id: nat, x: Sess<M>, ghost h: Story<M>)
      requires Valid() && id in sessions && x.conn == sessions[id].conn && x.stopRequested
      requires x.reqCnt == h.outstanding && (x.reqCnt > 0 ==> Stopping(x) && InOrder(x, h))
      modifies `sessions, `conns, `stories, `stops
      ensures Valid() && conns.Keys == old(conns.Keys)
      ensures sessions == if x.reqCnt == 0 then old(sessions) - {id} else old(sessions)[id := x]
      ensures if x.reqCnt == 0 then stops == old(stops) + [Stop(id, 0)] else stops == old(stops) && stories == old(stories)[id := h]
    {
      hide Listed, InOrder, Stopping, RemoveId;
      if x.reqCnt == 0 {
        DropScheduled(sessions, stories, id, h);
        DropServed(sessions, stories, id);
        stories := stories[id := h];
        RpStop(id);
        DropSession(id);
      } else {
        Update(id, x, h);
      }
    }

    lemma ConnectionOf(id: nat)
      requires Linked() && id in sessions && sessions[id].conn.Some?
      ensures sessions[id].conn.value in conns
    {
    }

    /** One round of the loop of `cm_conn_close`, for the first session of the connection (417-440). */
    method CloseFirst(c: Cid)
      requires Linked() && c in conns && conns[c] != [] && conns[c][0] in sessions && sessions[conns[c][0]].conn == Some(c)
      modifies `sessions, `conns, `stories, `stops
      ensures Linked() && c in conns && conns == old(conns)[c := old(conns)[c][1..]]
      ensures stops == old(stops) + if old(sessions)[old(conns)[c][0]].reqCnt > 0 then [] else [Stop(old(conns)[c][0], 0)]
      ensures KeptStories(old(stories), stories, sessions)
      ensures var id := old(conns)[c][0];
              sessions == if old(sessions)[id].reqCnt > 0 then old(sessions)[id := old(sessions)[id].(stopRequested := true, conn := None)]
                          else old(sessions) - {id}
    {
      hide Listed, Scheduled, Stopping, InOrder, RemoveId;
      var id := conns[c][0];
      var x := sessions[id];
      SessionOf(sessions, stories, id);
      if x.reqCnt > 0 {
        Detached(sessions, conns, c);
        MarkedStop(x, stories[id]);
        ScheduledUpdate(sessions, stories, id, x.(stopRequested := true, conn := None));
        sessions := sessions[id := x.(stopRequested := true, conn := None)];
        conns := conns[c := conns[c][1..]];
      } else {
        IdleOutstanding(x, stories[id]);
        RpStop(id);
        DropScheduled(sessions, stories, id, stories[id]);
        RemoveHead(conns[c]);
        DropSession(id);
      }
    }

    /** `cm_conn_close` (400-455): idle sessions of the connection are dropped, busy ones lose it and
        wait for their stop. */
    method CloseConnection(c: Cid)
      requires Linked() && c in conns
      modifies `sessions, `conns, `stories, `delivered, `stops
      ensures Linked() && conns == old(conns) - {c} && delivered == old(delivered) - {c}
      ensures Lost(c, old(sessions), sessions) && KeptStories(old(stories), stories, sessions)
      // each idle session is stopped, once
      ensures stops == old(stops) + IdleStops(old(conns)[c], old(sessions))
      ensures old(Served(sessions, stories)) ==> Served(sessions, stories)
    {
      hide Listed, Scheduled, Closed, Lost, Served, KeptStories, IdleStops;
      ghost var all := stops + IdleStops(conns[c], sessions);
      ClosedNothing(c, sessions);
      KeptSelf(stories, sessions);
      while conns[c] != []
        invariant Linked() && c in conns && conns == old(conns)[c := conns[c]] && delivered == old(delivered)
        invariant Closed(c, old(sessions), sessions) && KeptStories(old(stories), stories, sessions)
        invariant stops + IdleStops(conns[c], sessions) == all
        decreases |conns[c]|
      {
        FirstListed(sessions, conns, c);
        IdleFirst(sessions, conns, c);
        ClosedNext(c, old(sessions), sessions, conns[c][0]);
        ghost var sessions0, stories0 := sessions, stories;
        label round:
        CloseFirst(c);
        KeptTwice(old(stories), stories0, sessions0, stories, sessions);
        IdleElsewhere(conns[c], sessions0, sessions, old@round(conns[c][0]));
      }
      IdleNone(conns[c], sessions);
      NobodyLeft(sessions, conns, c);
      AllClosed(c, old(sessions), sessions);
      if Served(old(sessions), old(stories)) { LostServed(c, old(sessions), old(stories), sessions, stories); }
      conns := conns - {c};
      delivered := delivered - {c};
    }
  }

  lemma RemoveHead(l: seq<nat>)
    requires l != []
    ensures RemoveId(l, l[0]) == l[1..]
  {
  }

  lemma IdleFirst<M(!new)>(sessions: map<nat, Sess<M>>, conns: map<Cid, seq<nat>>, c: Cid)
    requires Listed(sessions, conns) && c in conns && conns[c] != []
    ensures var id := conns[c][0];
      && id in sessions && id !in conns[c][1..]
      && IdleStops(conns[c], sessions) == (if sessions[id].reqCnt > 0 then [] else [Stop(id, 0)]) + IdleStops(conns[c][1..], sessions)
  {
    var l := conns[c];
    assert Distinct(l) && l[0] in l;
  }

  lemma IdleNone<M>(l: seq<nat>, sessions: map<nat, Sess<M>>)
    requires l == []
    ensures IdleStops(l, sessions) == []
  {
  }

  /** What sessions may have become while their connection is closed. */
  ghost predicate Closed<M(!new)>(c: Cid, before: map<nat, Sess<M>>, now: map<nat, Sess<M>>) {
    && (forall id :: id in now ==> id in before && Closing(c, before[id], now[id]))
    && (forall id :: id in before && id !in now ==> before[id].conn == Some(c) && before[id].reqCnt == 0)
  }

  lemma ClosedNothing<M(!new)>(c: Cid, sessions: map<nat, Sess<M>>)
    ensures Closed(c, sessions, sessions)
  {
  }

  lemma ClosedNext<M(!new)>(c: Cid, before: map<nat, Sess<M>>, now: map<nat, Sess<M>>, id: nat)
    requires Closed(c, before, now) && id in now && now[id].conn == Some(c)
    ensures Closed(c, before, if now[id].reqCnt > 0 then now[id := now[id].(stopRequested := true, conn := None)] else now - {id})
  {
  }

  lemma AllClosed<M(!new)>(c: Cid, before: map<nat, Sess<M>>, now: map<nat, Sess<M>>)
    requires Closed(c, before, now) && forall id :: id in now ==> now[id].conn != Some(c)
    ensures Lost(c, before, now)
  {
  }

  /** The connection is lost: its idle sessions are gone, busy ones wait for their stop. */
  ghost predicate Lost<M(!new)>(c: Cid, before: map<nat, Sess<M>>, now: map<nat, Sess<M>>) {
    && (forall id :: id in now <==> id in before && !(before[id].conn == Some(c) && before[id].reqCnt == 0))
    && (forall id :: id in now ==>
          now[id] == if before[id].conn == Some(c) then before[id].(conn := None, stopRequested := true) else before[id])
  }

  /** The stories of the sessions that are left are as before. */
  ghost predicate KeptStories<M(!new)>(before: map<nat, Story<M>>, now: map<nat, Story<M>>, sessions: map<nat, Sess<M>>) {
    forall id :: id in sessions && id in now ==> id in before && now[id] == before[id]
  }

  lemma KeptSelf<M(!new)>(stories: map<nat, Story<M>>, sessions: map<nat, Sess<M>>)
    ensures KeptStories(stories, stories, sessions)
  {
  }

  lemma KeptTwice<M(!new)>(a: map<nat, Story<M>>, b: map<nat, Story<M>>, sessions: map<nat, Sess<M>>, c: map<nat, Story<M>>, now: map<nat, Sess<M>>)
    requires KeptStories(a, b, sessions) && KeptStories(b, c, now) && now.Keys <= sessions.Keys
    ensures KeptStories(a, c, now)
  {
  }

  lemma LostServed<M(!new)>(c: Cid, before: map<nat, Sess<M>>, stories: map<nat, Story<M>>, now: map<nat, Sess<M>>, stories': map<nat, Story<M>>)
    requires Lost(c, before, now) && KeptStories(stories, stories', now) && Served(before, stories)
    ensures Served(now, stories')
  {
  }

  /** A session marked for its stop before the connection is lost is no different afterwards. */
  lemma LostMarked<M(!new)>(c: Cid, before: map<nat, Sess<M>>, id: nat, marked: bool, now: map<nat, Sess<M>>)
    requires id in before && before[id].conn == Some(c) && (marked ==> before[id].reqCnt > 0)
    requires Lost(c, if marked then before[id := before[id].(stopRequested := true)] else before, now)
    ensures Lost(c, before, now)
  {
  }

  lemma LostBusy<M(!new)>(c: Cid, before: map<nat, Sess<M>>, id: nat, now: map<nat, Sess<M>>)
    requires Lost(c, before, now) && id in before && before[id].conn == Some(c)
    ensures id in now <==> before[id].reqCnt > 0
    ensures id in now ==> now[id].reqCnt > 0
    ensures now.Keys <= before.Keys && forall k :: k in now && k != id ==> now[k].reqCnt == before[k].reqCnt && now[k].queue == before[k].queue
  {
  }

  lemma OthersServed<M(!new)>(sessions0: map<nat, Sess<M>>, stories0: map<nat, Story<M>>, before: map<nat, Sess<M>>,
                              stories1: map<nat, Story<M>>, id: nat, now: map<nat, Sess<M>>, stories: map<nat, Story<M>>)
    requires Served(sessions0, stories0) && id in before && before == sessions0[id := before[id]]
    requires now.Keys <= before.Keys && (id in now ==> now[id].reqCnt > 0)
    requires forall k :: k in now && k != id ==> now[k].reqCnt == before[k].reqCnt && now[k].queue == before[k].queue
    requires forall k :: k in stories1 && k != id ==> k in stories0 && stories1[k] == stories0[k]
    requires KeptStories(stories1, stories, now)
    ensures Served(now, stories)
  {
  }

  lemma ServedAgain<M(!new)>(sessions0: map<nat, Sess<M>>, stories0: map<nat, Story<M>>, id: nat, sessions: map<nat, Sess<M>>, stories: map<nat, Story<M>>)
    requires Served(sessions0, stories0) && id in sessions && id in stories
    requires sessions == sessions0[id := sessions[id]] && stories == stories0[id := stories[id]]
    requires Stuck(sessions[id]) ==> stories[id].refused
    ensures Served(sessions, stories)
  {
  }

  lemma DropServed<M(!new)>(sessions: map<nat, Sess<M>>, stories: map<nat, Story<M>>, id: nat)
    requires Served(sessions, stories)
    ensures Served(sessions - {id}, stories - {id})
  {
  }

  /** Order after a request that goes on at once, or waits. */
  lemma StillOrdered<M>(x: Sess<M>, h: Story<M>, msg: M)
    requires Ordered(x, h)
    ensures h.received + [msg] == h.forwarded + (x.queue + [msg])
    ensures h.received + [msg] == h.forwarded + [msg] + x.queue <==> x.queue + [msg] == [msg] + x.queue
  {
    var a, b := h.forwarded, x.queue;
    assert h.received + [msg] == a + (b + [msg]) && a + [msg] + b == a + ([msg] + b);
    if a + (b + [msg]) == a + ([msg] + b) {
      assert (a + (b + [msg]))[|a|..] == b + [msg] && (a + ([msg] + b))[|a|..] == [msg] + b;
    }
  }

  lemma SessionOf<M(!new)>(sessions: map<nat, Sess<M>>, stories: map<nat, Story<M>>, id: nat)
    requires Scheduled(sessions, stories) && id in sessions
    ensures id in stories && Stopping(sessions[id]) && InOrder(sessions[id], stories[id])
  {
  }

  ghost predicate Closing<M>(c: Cid, before: Sess<M>, now: Sess<M>) {
    now == before || (before.conn == Some(c) && before.reqCnt > 0 && now == before.(conn := None, stopRequested := true))
  }

  lemma FirstListed<M(!new)>(sessions: map<nat, Sess<M>>, conns: map<Cid, seq<nat>>, c: Cid)
    requires Listed(sessions, conns) && c in conns && conns[c] != []
    ensures conns[c][0] in sessions && sessions[conns[c][0]].conn == Some(c)
    ensures conns[c][0] in conns[c]
  {
    assert conns[c][0] in conns[c];
  }

  /** The first session of the list is detached. */
  lemma Detached<M(!new)>(sessions: map<nat, Sess<M>>, conns: map<Cid, seq<nat>>, c: Cid)
    requires Listed(sessions, conns) && c in conns && conns[c] != [] && conns[c][0] in sessions
    ensures var id := conns[c][0];
            Listed(sessions[id := sessions[id].(stopRequested := true, conn := None)], conns[c := conns[c][1..]])
  {
    var id := conns[c][0];
    assert conns[c][0] in conns[c] && id !in conns[c][1..];
    assert forall k :: k in conns[c] <==> k == id || k in conns[c][1..];
  }

  lemma ScheduledUpdate<M(!new)>(sessions: map<nat, Sess<M>>, stories: map<nat, Story<M>>, id: nat, x: Sess<M>)
    requires Scheduled(sessions, stories) && id in sessions && Stopping(x) && InOrder(x, stories[id])
    ensures Scheduled(sessions[id := x], stories)
  {
  }

  lemma NobodyLeft<M(!new)>(sessions: map<nat, Sess<M>>, conns: map<Cid, seq<nat>>, c: Cid)
    requires Listed(sessions, conns) && c in conns && conns[c] == []
    ensures Listed(sessions, conns - {c}) && forall id :: id in sessions ==> sessions[id].conn != Some(c)
  {
  }

  lemma ConnectionThere<M(!new)>(sessions: map<nat, Sess<M>>, conns: map<Cid, seq<nat>>, id: nat)
    requires Listed(sessions, conns) && id in sessions && sessions[id].conn.Some?
    ensures sessions[id].conn.value in conns
  {
  }

  lemma MarkedStop<M>(x: Sess<M>, h: Story<M>)
    requires Stopping(x) && InOrder(x, h) && x.reqCnt > 0
    ensures Stopping(x.(stopRequested := true)) && InOrder(x.(stopRequested := true), h)
    ensures Stopping(x.(stopRequested := true, conn := None)) && InOrder(x.(stopRequested := true, conn := None), h)
  {
  }

  lemma IdleOutstanding<M>(x: Sess<M>, h: Story<M>)
    requires InOrder(x, h) && x.reqCnt == 0
    ensures h.outstanding == 0
  {
  }

  lemma SameMap<M>(stories: map<nat, Story<M>>, id: nat)
    requires id in stories
    ensures stories[id := stories[id]] == stories
  {
  }

  lemma DropScheduled<M(!new)>(sessions: map<nat, Sess<M>>, stories: map<nat, Story<M>>, id: nat, h: Story<M>)
    requires Scheduled(sessions, stories) && id in sessions
    ensures Scheduled(sessions - {id}, stories - {id})
    ensures stories[id := h] - {id} == stories - {id}
  {
  }

  /** The counters after a response, or after anything else. */
  lemma Answered<M>(x0: Sess<M>, h0: Story<M>, x: Sess<M>, h: Story<M>)
    requires Stopping(x0) && InOrder(x0, h0)
    requires (x == x0 && h == h0) || (x0.reqCnt > 0 && x == x0.(reqCnt := x0.reqCnt - 1) && h == h0.(outstanding := h0.outstanding - 1))
    ensures InOrder(x, h) && x.reqCnt == h.outstanding
    ensures !(x.reqCnt == 0 && x.stopRequested) ==> Stopping(x)
  {
  }

  ghost function Advanced<M>(x: Sess<M>, h: Story<M>, cnt: nat): Story<M>
    requires x.queue != []
  {
    h.(forwarded := h.forwarded + [x.queue[0]], outstanding := cnt, refused := h.refused || (cnt == 0 && |x.queue| > 1))
  }

  /** The next request of the queue goes to the Request Processor. */
  lemma Dequeued<M>(x: Sess<M>, h: Story<M>, cnt: nat)
    requires x.reqCnt == 0 && x.queue != [] && cnt <= 1 && !x.stopRequested && x.conn.Some?
    requires InOrder(x, h)
    ensures Stopping(x.(queue := x.queue[1..], reqCnt := cnt)) && InOrder(x.(queue := x.queue[1..], reqCnt := cnt), Advanced(x, h, cnt))
  {
    assert x.queue == [x.queue[0]] + x.queue[1..];
  }

  lemma CreateListed<M(!new)>(sessions: map<nat, Sess<M>>, conns: map<Cid, seq<nat>>, c: Cid, id: nat)
    requires Listed(sessions, conns) && c in conns && id !in sessions && id != 0
    ensures Listed(sessions[id := Sess(Some(c), 0, false, [])], conns[c := conns[c] + [id]])
  {
  }

  lemma DropListed<M(!new)>(sessions: map<nat, Sess<M>>, conns: map<Cid, seq<nat>>, id: nat)
    requires Listed(sessions, conns) && id in sessions
    ensures sessions[id].conn.None? ==> Listed(sessions - {id}, conns)
    ensures sessions[id].conn.Some? ==> var c := sessions[id].conn.value; c in conns && Listed(sessions - {id}, conns[c := RemoveId(conns[c], id)])
  {
    hide RemoveId, Distinct;
    if sessions[id].conn.Some? {
      RemoveDistinct(conns[sessions[id].conn.value], id);
      DropFrom(sessions, conns, id, RemoveId(conns[sessions[id].conn.value], id));
    }
  }

  lemma DropFrom<M(!new)>(sessions: map<nat, Sess<M>>, conns: map<Cid, seq<nat>>, id: nat, l: seq<nat>)
    requires Listed(sessions, conns) && id in sessions && sessions[id].conn.Some? && sessions[id].conn.value in conns
    requires Distinct(l) && forall x :: x in l <==> x in conns[sessions[id].conn.value] && x != id
    ensures Listed(sessions - {id}, conns[sessions[id].conn.value := l])
  {
    hide Distinct;
  }
}
