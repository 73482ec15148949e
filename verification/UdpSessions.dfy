/**
 * The session table of UdpServer (src/net/udp_socket.cpp): one session per source address with the
 * time of its last packet, swept by a periodic timer. Times are nanoseconds, timeouts milliseconds.
 */
module UdpSessions {
  import opened Base
  import opened InetAddrs

  const MS: int := 1_000_000
  const MIN_SCAN_INTERVAL_MS: nat := 100
  const MAX_SCAN_INTERVAL_MS: nat := 10_000
  const SCAN_FREQUENCY_DIVISOR: nat := 10

  datatype Session = Session(id: nat, stamp: int)

  datatype Callback = NewSessionCb | ReadCb

  /** A heavy task: one packet handed to a callback with its session. */
  datatype Delivery = Delivery(to: Callback, session: nat, data: seq<byte>)

  datatype Event =
    | Packet(from: Peer, data: seq<byte>, at: int)
    | Scan(at: int)
    | SetNewCb(on: bool)
    | SetReadCb(on: bool)

  /**
   * sessions_ is a hash map over InetAddr. The addresses come from make_from_sockaddr, and on those
   * operator== is equality of peers.
   */
  datatype Server = Server(
    sessions: map<Peer, Session>,
    made: nat,              // sessions created so far
    newCb: bool, readCb: bool,
    posts: seq<Delivery>
  )

  const INIT := Server(map[], 0, false, false, [])

  predicate Expired(s: Session, now: int, timeout: nat) {
    now - s.stamp > timeout * MS
  }

  function Step(s: Server, e: Event, timeout: nat): Server {
    match e
    case SetNewCb(on) => s.(newCb := on)
    case SetReadCb(on) => s.(readCb := on)
    case Scan(at) => s.(sessions := map p | p in s.sessions && !Expired(s.sessions[p], at, timeout) :: s.sessions[p])
    case Packet(p, data, at) =>
      if !s.readCb && !s.newCb then s
      else if p !in s.sessions then
        s.(sessions := s.sessions[p := Session(s.made, at)], made := s.made + 1,
           posts := s.posts + [Delivery(if s.newCb then NewSessionCb else ReadCb, s.made, data)])
      else if !s.readCb then s
      else
        s.(sessions := s.sessions[p := s.sessions[p].(stamp := at)],
           posts := s.posts + [Delivery(ReadCb, s.sessions[p].id, data)])
  }

  /** The server after a history. */
  function After(h: seq<Event>, timeout: nat): Server {
    if h == [] then INIT else Step(After(h[..|h| - 1], timeout), h[|h| - 1], timeout)
  }

  lemma AfterStep(h: seq<Event>, e: Event, timeout: nat)
    ensures After(h + [e], timeout) == Step(After(h, timeout), e, timeout)
  {
    assert (h + [e])[..|h|] == h;
  }

  // ---------------------------------------------------------------- the last-seen history

  /** The packet `h[k]` of `p` sets a time stamp: it finds read_cb_ set, or opens a session. */
  predicate Stamps(h: seq<Event>, k: nat, p: Peer, timeout: nat)
    requires k < |h|
  {
    && h[k].Packet? && h[k].from == p
    && var s := After(h[..k], timeout);
       s.readCb || (s.newCb && p !in s.sessions)
  }

  /** The last packet of `p` that set a time stamp, -1 without one. */
  function LastStamp(h: seq<Event>, p: Peer, timeout: nat): (k: int)
    ensures -1 <= k < |h|
    ensures k >= 0 ==> Stamps(h, k, p, timeout)
    ensures forall j :: k < j < |h| ==> !Stamps(h, j, p, timeout)
  {
    if h == [] then -1
    else
      var rest := h[..|h| - 1];
      assert forall j :: 0 <= j < |rest| ==> rest[..j] == h[..j];
      assert forall j :: 0 <= j < |rest| ==> Stamps(rest, j, p, timeout) == Stamps(h, j, p, timeout);
      if Stamps(h, |h| - 1, p, timeout) then |h| - 1 else LastStamp(rest, p, timeout)
  }

  /** No sweep since `h[k]` came more than the timeout after it. */
  predicate NotSweptSince(h: seq<Event>, k: nat, timeout: nat)
    requires k < |h| && h[k].Packet?
  {
    forall j :: k < j < |h| && h[j].Scan? ==> h[j].at - h[k].at <= timeout * MS
  }

  /**
   * The table agrees with the history in every run: an address has a session exactly when no sweep
   * has come too late for its last stamping packet, and the session carries that packet's time.
   */
  lemma {:induction false} TableIsHistory(h: seq<Event>, p: Peer, timeout: nat)
    ensures var k, s := LastStamp(h, p, timeout), After(h, timeout).sessions;
            && (p in s <==> k >= 0 && NotSweptSince(h, k, timeout))
            && (p in s ==> s[p].stamp == h[k].at)
    decreases |h|
  {
    if h != [] {
      var n := |h| - 1;
      TableIsHistory(h[..n], p, timeout);
      LastStampStep(h, p, timeout);
      var k := LastStamp(h[..n], p, timeout);
      if k >= 0 && h[n].Scan? {
        assert NotSweptSince(h, k, timeout) <==> NotSweptSince(h[..n], k, timeout) && h[n].at - h[k].at <= timeout * MS;
      } else if k >= 0 {
        assert NotSweptSince(h, k, timeout) <==> NotSweptSince(h[..n], k, timeout);
      }
    }
  }

  lemma LastStampStep(h: seq<Event>, p: Peer, timeout: nat)
    requires h != []
    ensures LastStamp(h, p, timeout) == if Stamps(h, |h| - 1, p, timeout) then |h| - 1 else LastStamp(h[..|h| - 1], p, timeout)
  {
  }

  /** read_cb_ is set whenever a packet arrives. */
  ghost predicate AlwaysRead(h: seq<Event>, timeout: nat) {
    forall k :: 0 <= k < |h| && h[k].Packet? ==> After(h[..k], timeout).readCb
  }

  ghost predicate IsLastPacket(h: seq<Event>, k: int, p: Peer) {
    && 0 <= k < |h| && h[k].Packet? && h[k].from == p
    && forall j :: k < j < |h| && h[j].Packet? ==> h[j].from != p
  }

  /** With read_cb_ set, a packet opens a session exactly when its address has not been heard of since it was last swept. */
  lemma NewSessionIff(h: seq<Event>, p: Peer, data: seq<byte>, at: int, timeout: nat)
    requires AlwaysRead(h, timeout) && After(h, timeout).readCb
    ensures var s, t := After(h, timeout), After(h + [Packet(p, data, at)], timeout);
            && (t.made == s.made + 1 <==> !exists k: nat :: IsLastPacket(h, k, p) && NotSweptSince(h, k, timeout))
            && (t.made == s.made || t.made == s.made + 1)
            && p in t.sessions && t.sessions[p].stamp == at
  {
    AfterStep(h, Packet(p, data, at), timeout);
    TableIsHistory(h, p, timeout);
    var last := LastStamp(h, p, timeout);
    assert forall j :: last < j < |h| && h[j].Packet? && h[j].from == p ==> !Stamps(h, j, p, timeout);
    if last >= 0 {
      assert IsLastPacket(h, last, p);
      assert forall k :: IsLastPacket(h, k, p) ==> k == last;
    } else {
      assert forall k :: !IsLastPacket(h, k, p);
    }
  }

  function Datas(posts: seq<Delivery>): seq<seq<byte>> {
    seq(|posts|, i requires 0 <= i < |posts| => posts[i].data)
  }

  function PacketDatas(h: seq<Event>): seq<seq<byte>> {
    if h == [] then []
    else
      var before, e := PacketDatas(h[..|h| - 1]), h[|h| - 1];
      if e.Packet? then before + [e.data] else before
  }

  /** With read_cb_ set, every packet is handed to the heavy thread once, in the order of arrival. */
  lemma {:induction false} EveryPacketDelivered(h: seq<Event>, timeout: nat)
    requires AlwaysRead(h, timeout)
    ensures Datas(After(h, timeout).posts) == PacketDatas(h)
    decreases |h|
  {
    if h != [] {
      var n := |h| - 1;
      assert forall k :: 0 <= k < n ==> h[..n][..k] == h[..k];
      assert AlwaysRead(h[..n], timeout);
      EveryPacketDelivered(h[..n], timeout);
      if h[n].Packet? {
        var s, t := After(h[..n], timeout), After(h, timeout);
        assert s.readCb;
        assert Datas(t.posts) == Datas(s.posts) + [h[n].data];
      }
    }
  }

  // ---------------------------------------------------------------- deliveries

  /** The packet `h[k]` is handed to a callback. */
  predicate IsDelivered(h: seq<Event>, k: nat, timeout: nat)
    requires k < |h|
  {
    h[k].Packet? && Stamps(h, k, h[k].from, timeout)
  }

  /** The packets handed to callbacks, as positions in the history, oldest first. */
  function Delivered(h: seq<Event>, timeout: nat): (r: seq<nat>)
    ensures forall i :: 0 <= i < |r| ==> r[i] < |h|
  {
    if h == [] then []
    else Delivered(h[..|h| - 1], timeout) + if IsDelivered(h, |h| - 1, timeout) then [|h| - 1] else []
  }

  /** What one packet adds to the posts: nothing, or its data with the session its source has from then on. */
  lemma PacketIsPosted(s: Server, p: Peer, data: seq<byte>, at: int, timeout: nat)
    ensures var t := Step(s, Packet(p, data, at), timeout);
            var isNew := p !in s.sessions;
            if !s.readCb && (!s.newCb || !isNew) then t.posts == s.posts
            else
              && p in t.sessions
              && t.posts == s.posts + [Delivery(if isNew && s.newCb then NewSessionCb else ReadCb, t.sessions[p].id, data)]
              && (if isNew then t.sessions[p].id == s.made else t.sessions[p].id == s.sessions[p].id)
    ensures forall q :: q != p ==> (q in Step(s, Packet(p, data, at), timeout).sessions <==> q in s.sessions)
    ensures forall q :: q != p && q in s.sessions ==> Step(s, Packet(p, data, at), timeout).sessions[q] == s.sessions[q]
  {
  }

  /** Ids in the table are distinct and used up, and every post with the id of a session came from its peer. */
  ghost predicate IdsBelong(s: Server, from: seq<Peer>) {
    && |s.posts| == |from|
    && (forall p :: p in s.sessions ==> s.sessions[p].id < s.made)
    && (forall p, q :: p in s.sessions && q in s.sessions && s.sessions[p].id == s.sessions[q].id ==> p == q)
    && (forall i :: 0 <= i < |from| ==> s.posts[i].session < s.made)
    && (forall p, i :: p in s.sessions && 0 <= i < |from| && s.posts[i].session == s.sessions[p].id ==> from[i] == p)
    && (forall i, j :: 0 <= i < j < |from| && s.posts[i].session == s.posts[j].session ==> from[i] == from[j])
  }

  lemma PacketKeepsIds(s: Server, from: seq<Peer>, p: Peer, data: seq<byte>, at: int, timeout: nat)
    requires IdsBelong(s, from)
    ensures IdsBelong(Step(s, Packet(p, data, at), timeout), from + if s.readCb || (s.newCb && p !in s.sessions) then [p] else [])
  {
    PacketIsPosted(s, p, data, at, timeout);
    assert from + [] == from;
  }

  /** The sources of these packets. */
  function Sources(h: seq<Event>, at: seq<nat>): seq<Peer>
    requires forall i :: 0 <= i < |at| ==> at[i] < |h| && h[at[i]].Packet?
  {
    seq(|at|, i requires 0 <= i < |at| => h[at[i]].from)
  }

  lemma {:induction false} DeliveredArePackets(h: seq<Event>, timeout: nat)
    ensures forall i :: 0 <= i < |Delivered(h, timeout)| ==> h[Delivered(h, timeout)[i]].Packet?
    decreases |h|
  {
    if h != [] {
      DeliveredArePackets(h[..|h| - 1], timeout);
    }
  }

  lemma {:induction false} HistoryKeepsIds(h: seq<Event>, timeout: nat)
    ensures forall i :: 0 <= i < |Delivered(h, timeout)| ==> h[Delivered(h, timeout)[i]].Packet?
    ensures IdsBelong(After(h, timeout), Sources(h, Delivered(h, timeout)))
    decreases |h|
  {
    DeliveredArePackets(h, timeout);
    if h != [] {
      var n := |h| - 1;
      HistoryKeepsIds(h[..n], timeout);
      var before, e := Sources(h[..n], Delivered(h[..n], timeout)), h[n];
      assert Sources(h, Delivered(h, timeout)) == before + if IsDelivered(h, n, timeout) then [e.from] else [];
      if e.Packet? {
        PacketKeepsIds(After(h[..n], timeout), before, e.from, e.data, e.at, timeout);
      }
    }
  }

  /**
   * In every run the posts are the delivered packets in order, and a callback never gets a packet with
   * another peer's session: posts that name the same session come from the same source.
   */
  lemma SessionsStayApart(h: seq<Event>, timeout: nat)
    ensures var posts, at := After(h, timeout).posts, Delivered(h, timeout);
            && |posts| == |at|
            && (forall i :: 0 <= i < |at| ==> h[at[i]].Packet?)
            && (forall i, j :: 0 <= i < |at| && 0 <= j < |at| && posts[i].session == posts[j].session ==>
                  h[at[i]].from == h[at[j]].from)
  {
    HistoryKeepsIds(h, timeout);
    var posts, at := After(h, timeout).posts, Delivered(h, timeout);
    var from := Sources(h, at);
    forall i, j | 0 <= i < |at| && 0 <= j < |at| && posts[i].session == posts[j].session
      ensures h[at[i]].from == h[at[j]].from
    {
      assert from[i] == h[at[i]].from && from[j] == h[at[j]].from;
      assert i < j || j < i || i == j;
    }
  }

  /** `post` is the one that the packet `h[k]` made. */
  predicate CarriesSession(h: seq<Event>, k: nat, post: Delivery, timeout: nat)
    requires k < |h|
  {
    var before, after := After(h[..k], timeout), After(h[..k + 1], timeout);
    && h[k].Packet? && post.data == h[k].data
    && h[k].from in after.sessions && post.session == after.sessions[h[k].from].id
    && (post.to == NewSessionCb <==> h[k].from !in before.sessions && before.newCb)
  }

  lemma LastPost(h: seq<Event>, timeout: nat)
    requires h != []
    ensures var n, s, t := |h| - 1, After(h[..|h| - 1], timeout), After(h, timeout);
            if IsDelivered(h, n, timeout) then |t.posts| == |s.posts| + 1 && s.posts <= t.posts && CarriesSession(h, n, t.posts[|s.posts|], timeout)
            else t.posts == s.posts
  {
    var n, s, e := |h| - 1, After(h[..|h| - 1], timeout), h[|h| - 1];
    assert h[..n + 1] == h;
    if e.Packet? {
      PacketIsPosted(s, e.from, e.data, e.at, timeout);
    }
  }

  lemma CarriesSessionInPrefix(h: seq<Event>, n: nat, k: nat, post: Delivery, timeout: nat)
    requires k < n <= |h| && CarriesSession(h[..n], k, post, timeout)
    ensures CarriesSession(h, k, post, timeout)
  {
    assert h[..n][..k] == h[..k] && h[..n][..k + 1] == h[..k + 1];
  }

  /**
   * The post of each delivered packet carries its data and the session its source has right after it,
   * and goes to the new-session callback exactly when the packet opened the session with that callback set.
   */
  lemma {:induction false} PostsCarryTheirSession(h: seq<Event>, timeout: nat, i: nat)
    requires i < |Delivered(h, timeout)|
    ensures |After(h, timeout).posts| == |Delivered(h, timeout)|
    ensures CarriesSession(h, Delivered(h, timeout)[i], After(h, timeout).posts[i], timeout)
    decreases |h|
  {
    var n := |h| - 1;
    SessionsStayApart(h, timeout);
    LastPost(h, timeout);
    if i < |Delivered(h[..n], timeout)| {
      PostsCarryTheirSession(h[..n], timeout, i);
      CarriesSessionInPrefix(h, n, Delivered(h[..n], timeout)[i], After(h, timeout).posts[i], timeout);
    } else {
      SessionsStayApart(h[..n], timeout);
    }
  }

  /**
   * A sweep removes a session although its last packet `h[k]` is within the timeout exactly when an
   * older packet set the stamp, and only when that last packet found no read_cb_.
   */
  lemma SweptEarlyIff(h: seq<Event>, k: nat, p: Peer, at: int, timeout: nat)
    requires IsLastPacket(h, k, p) && p in After(h, timeout).sessions
    requires at - h[k].at <= timeout * MS
    ensures var last := LastStamp(h, p, timeout);
            && 0 <= last <= k
            && (p !in After(h + [Scan(at)], timeout).sessions <==> last < k && at - h[last].at > timeout * MS)
            && (p !in After(h + [Scan(at)], timeout).sessions ==> !After(h[..k], timeout).readCb)
  {
    TableIsHistory(h, p, timeout);
    AfterStep(h, Scan(at), timeout);
    var last := LastStamp(h, p, timeout);
    assert Stamps(h, last, p, timeout);
    assert After(h[..k], timeout).readCb ==> Stamps(h, k, p, timeout);
  }

  /**
   * Without read_cb_ a packet of an existing session neither reaches a callback nor refreshes its
   * stamp, so a client that keeps sending is swept: here 26 seconds after its last packet.
   */
  lemma SendingClientIsSwept(p: Peer, data: seq<byte>)
    ensures var h := [SetNewCb(true), Packet(p, data, 0), Packet(p, data, 40_000 * MS), Scan(66_000 * MS)];
            && p in After(h[..3], 60_000).sessions && p !in After(h, 60_000).sessions
            && h[3].at - h[2].at == 26_000 * MS
            && |After(h, 60_000).posts| == 1
  {
    var h1 := [SetNewCb(true)];
    var h2 := h1 + [Packet(p, data, 0)];
    var h3 := h2 + [Packet(p, data, 40_000 * MS)];
    AfterStep([], SetNewCb(true), 60_000);
    assert [] + h1 == h1;
    AfterStep(h1, Packet(p, data, 0), 60_000);
    AfterStep(h2, Packet(p, data, 40_000 * MS), 60_000);
    AfterStep(h3, Scan(66_000 * MS), 60_000);
    var h := [SetNewCb(true), Packet(p, data, 0), Packet(p, data, 40_000 * MS), Scan(66_000 * MS)];
    assert h[..3] == h3 && h == h3 + [Scan(66_000 * MS)];
  }

  // ---------------------------------------------------------------- staleness

  ghost predicate Clocked(h: seq<Event>) {
    forall i, j :: 0 <= i < j < |h| && !h[i].SetNewCb? && !h[i].SetReadCb? && !h[j].SetNewCb? && !h[j].SetReadCb? ==> h[i].at <= h[j].at
  }

  /** A sweep later than the timeout after the last packet of an address has removed its session, whatever callbacks were set. */
  lemma IdleIsSwept(h: seq<Event>, k: nat, j: nat, p: Peer, timeout: nat)
    requires Clocked(h) && IsLastPacket(h, k, p)
    requires k < j < |h| && h[j].Scan? && h[j].at - h[k].at > timeout * MS
    ensures p !in After(h, timeout).sessions
  {
    TableIsHistory(h, p, timeout);
    var last := LastStamp(h, p, timeout);
    assert last >= 0 ==> Stamps(h, last, p, timeout) && last <= k && h[last].at <= h[k].at;
  }

  /** The interval of the periodic sweep. */
  function ScanInterval(timeout: nat): nat {
    var scan := timeout / SCAN_FREQUENCY_DIVISOR;
    if scan < MIN_SCAN_INTERVAL_MS then MIN_SCAN_INTERVAL_MS
    else if scan > MAX_SCAN_INTERVAL_MS then MAX_SCAN_INTERVAL_MS
    else scan
  }

  /** From `start` to `now` there is a sweep in every stretch of one interval. */
  ghost predicate Punctual(h: seq<Event>, start: int, now: int, interval: int) {
    forall x :: start <= x && x + interval <= now ==> HasSweepIn(h, x, interval)
  }

  ghost predicate HasSweepIn(h: seq<Event>, after: int, length: int) {
    exists j :: 0 <= j < |h| && h[j].Scan? && after < h[j].at <= after + length
  }

  /** With a punctual timer an address silent for the timeout and one scan interval has no session. */
  lemma IdleSessionIsGone(h: seq<Event>, start: int, now: int, k: nat, p: Peer, timeout: nat)
    requires Clocked(h) && IsLastPacket(h, k, p) && start <= h[k].at
    requires Punctual(h, start, now, ScanInterval(timeout) * MS)
    requires h[k].at + (timeout + ScanInterval(timeout)) * MS <= now
    ensures p !in After(h, timeout).sessions
  {
    var due := h[k].at + timeout * MS;
    assert HasSweepIn(h, due, ScanInterval(timeout) * MS);
    var j :| 0 <= j < |h| && h[j].Scan? && due < h[j].at <= due + ScanInterval(timeout) * MS;
    assert j > k;
    IdleIsSwept(h, k, j, p, timeout);
  }

  /** The interval is at most a tenth of the timeout exactly from a timeout of one second on. */
  lemma OvershootIff(timeout: nat)
    requires timeout > 0
    ensures SCAN_FREQUENCY_DIVISOR * ScanInterval(timeout) <= timeout <==> timeout >= 1000
    ensures ScanInterval(timeout) == if timeout <= 1000 then 100 else if timeout >= 100_000 then 10_000 else timeout / 10
  {
  }

  /** Nothing in the history is later than `now`. */
  ghost predicate UpTo(h: seq<Event>, now: int) {
    forall j :: 0 <= j < |h| && !h[j].SetNewCb? && !h[j].SetReadCb? ==> h[j].at <= now
  }

  /**
   * With a punctual timer, at `now` the address still has a session although its last packet `h[k]`
   * is 11/10 of the timeout old.
   */
  ghost predicate Overshoots(h: seq<Event>, start: int, now: int, k: nat, p: Peer, timeout: nat) {
    && Clocked(h) && UpTo(h, now) && IsLastPacket(h, k, p) && start <= h[k].at
    && Punctual(h, start, now, ScanInterval(timeout) * MS)
    && 10 * (now - h[k].at) >= 11 * timeout * MS
    && p in After(h, timeout).sessions
  }

  /** One packet, then sweeps every 100 ms of which one comes just when the timeout is reached. */
  function SlowHistory(p: Peer, timeout: nat): seq<Event> {
    [SetReadCb(true), Packet(p, [], 0)] + seq(timeout / 100 + 1, i => Scan((timeout % 100 + 100 * i) * MS))
  }

  lemma SlowHistoryAt(p: Peer, timeout: nat, j: nat)
    requires j < |SlowHistory(p, timeout)|
    ensures var h := SlowHistory(p, timeout);
            && (j == 0 ==> h[j] == SetReadCb(true))
            && (j == 1 ==> h[j] == Packet(p, [], 0))
            && (j >= 2 ==> h[j] == Scan((timeout % 100 + 100 * (j - 2)) * MS) && 0 <= h[j].at <= timeout * MS)
  {
    assert timeout == timeout / 100 * 100 + timeout % 100;
  }

  lemma SlowHistoryIsClocked(p: Peer, timeout: nat)
    ensures var h := SlowHistory(p, timeout); Clocked(h) && UpTo(h, timeout * MS) && IsLastPacket(h, 1, p)
  {
    var h := SlowHistory(p, timeout);
    forall i, j | 0 < i < j < |h|
      ensures h[i].at <= h[j].at <= timeout * MS && h[j].Scan?
    {
      SlowHistoryAt(p, timeout, i);
      SlowHistoryAt(p, timeout, j);
    }
    SlowHistoryAt(p, timeout, 0);
    SlowHistoryAt(p, timeout, 1);
  }

  lemma SlowHistoryStamps(p: Peer, timeout: nat)
    ensures Stamps(SlowHistory(p, timeout), 1, p, timeout)
  {
    var h := SlowHistory(p, timeout);
    assert h[..1] == [SetReadCb(true)] == [] + [SetReadCb(true)];
    AfterStep([], SetReadCb(true), timeout);
  }

  /** No sweep of the history is late enough for the packet. */
  lemma SlowHistoryKeeps(p: Peer, timeout: nat)
    ensures p in After(SlowHistory(p, timeout), timeout).sessions
  {
    var h := SlowHistory(p, timeout);
    SlowHistoryIsClocked(p, timeout);
    SlowHistoryStamps(p, timeout);
    TableIsHistory(h, p, timeout);
    forall j | 1 < j < |h|
      ensures h[j].Scan? && h[j].at - h[1].at <= timeout * MS
    {
      SlowHistoryAt(p, timeout, j);
    }
    assert LastStamp(h, p, timeout) == 1;
  }

  /** Between 0 and the timeout, the next sweep of that history is never more than 100 ms away. */
  lemma SlowHistoryIsPunctual(p: Peer, timeout: nat)
    requires timeout < 1000
    ensures Punctual(SlowHistory(p, timeout), 0, (timeout + 100) * MS - 1, ScanInterval(timeout) * MS)
  {
    var h, tick := SlowHistory(p, timeout), 100 * MS;
    forall x | 0 <= x && x + tick <= (timeout + 100) * MS - 1
      ensures HasSweepIn(h, x, tick)
    {
      var first := timeout % 100 * MS;
      var i := if x < first then 0 else (x - first) / tick + 1;
      assert x < first + i * tick <= x + tick;
      assert timeout == timeout / 100 * 100 + timeout % 100;
      assert 0 <= i <= timeout / 100;
      SlowHistoryAt(p, timeout, i + 2);
      assert h[i + 2].at == first + i * tick;
    }
  }

  /**
   * The error of 10% that the constructor promises: under a punctual timer no session is ever kept
   * for 11/10 of the timeout exactly from a timeout of one second on. A factory refuses 0.
   */
  lemma OvershootOfServerIff(p: Peer, timeout: nat)
    requires timeout > 0
    ensures timeout >= 1000 <==>
            !exists h: seq<Event>, start: int, now: int, k: nat :: Overshoots(h, start, now, k, p, timeout)
  {
    OvershootIff(timeout);
    if timeout >= 1000 {
      forall h: seq<Event>, start: int, now: int, k: nat
        ensures !Overshoots(h, start, now, k, p, timeout)
      {
        if Overshoots(h, start, now, k, p, timeout) {
          IdleSessionIsGone(h, start, now, k, p, timeout);
        }
      }
    } else {
      SlowHistoryIsClocked(p, timeout);
      SlowHistoryKeeps(p, timeout);
      SlowHistoryIsPunctual(p, timeout);
      assert Overshoots(SlowHistory(p, timeout), 0, (timeout + 100) * MS - 1, 1, p, timeout);
    }
  }

  // ---------------------------------------------------------------- the server

  class UdpServer {
    const timeout: nat
    const scanInterval: nat
    var sessions: map<Peer, Session>
    var made: nat
    var newSessionCb: bool      // new_session_cb_ is set
    var readCb: bool            // read_cb_ is set
    var posts: seq<Delivery>
    ghost var history: seq<Event>

    ghost predicate Valid()
      reads this
    {
      && timeout > 0 && scanInterval == ScanInterval(timeout)
      && Server(sessions, made, newSessionCb, readCb, posts) == After(history, timeout)
    }

    constructor (timeoutMs: nat)
      requires timeoutMs > 0
      ensures Valid() && timeout == timeoutMs && history == []
    {
      timeout := timeoutMs;
      var scan := timeoutMs / SCAN_FREQUENCY_DIVISOR;
      if scan < MIN_SCAN_INTERVAL_MS {
        scan := MIN_SCAN_INTERVAL_MS;
      } else if scan > MAX_SCAN_INTERVAL_MS {
        scan := MAX_SCAN_INTERVAL_MS;
      }
      scanInterval := scan;
      sessions, made, newSessionCb, readCb, posts := map[], 0, false, false, [];
      history := [];
    }

    /** make_udp_server refuses other families than IPv4 and IPv6, and a timeout of 0. */
    static method MakeUdpServer(local: Family, timeoutMs: nat) returns (server: UdpServer?)
      ensures server == null <==> local !in {Inet, Inet6} || timeoutMs == 0
      ensures server != null ==> fresh(server) && server.Valid() && server.timeout == timeoutMs && server.history == []
    {
      if local != Inet && local != Inet6 {
        return null;
      }
      if timeoutMs == 0 {
        return null;
      }
      server := new UdpServer(timeoutMs);
    }

    method SetNewSessionCallback(on: bool)
      requires Valid()
      modifies this`newSessionCb, this`history
      ensures Valid() && history == old(history) + [SetNewCb(on)]
    {
      AfterStep(history, SetNewCb(on), timeout);
      newSessionCb := on;
      history := history + [SetNewCb(on)];
    }

    method SetReadCallback(on: bool)
      requires Valid()
      modifies this`readCb, this`history
      ensures Valid() && history == old(history) + [SetReadCb(on)]
    {
      AfterStep(history, SetReadCb(on), timeout);
      readCb := on;
      history := history + [SetReadCb(on)];
    }

    /** A packet; `now` is the clock reading for the time stamp. */
    method OnRead(data: seq<byte>, source: Peer, now: int)
      requires Valid()
      modifies this`sessions, this`made, this`posts, this`history
      ensures Valid() && history == old(history) + [Packet(source, data, now)]
      // The stamp is refreshed exactly when the packet opens the session or read_cb_ is set.
      ensures source in sessions ==>
                (sessions[source].stamp == now <==>
                 source !in old(sessions) || readCb || old(sessions)[source].stamp == now)
      ensures source in sessions <==> source in old(sessions) || readCb || newSessionCb
      ensures forall p :: p != source ==> (p in sessions <==> p in old(sessions))
      ensures forall p :: p != source && p in sessions ==> sessions[p] == old(sessions)[p]
      ensures source in sessions ==>
                sessions[source].id == if source in old(sessions) then old(sessions)[source].id else old(made)
      // The packet is handed over with the session of its source, or not at all.
      ensures var isNew := source !in old(sessions);
              if !readCb && !(newSessionCb && isNew) then posts == old(posts)
              else
                && source in sessions
                && posts == old(posts) + [Delivery(if isNew && newSessionCb then NewSessionCb else ReadCb, sessions[source].id, data)]
    {
      AfterStep(history, Packet(source, data, now), timeout);
      history := history + [Packet(source, data, now)];
      if !readCb && !newSessionCb {
        return;
      }
      if source !in sessions {
        var session := Session(made, now);
        made := made + 1;
        sessions := sessions[source := session];
        if newSessionCb {
          posts := posts + [Delivery(NewSessionCb, session.id, data)];
        } else {
          posts := posts + [Delivery(ReadCb, session.id, data)];
        }
        return;
      }
      if !readCb {
        return;
      }
      sessions := sessions[source := sessions[source].(stamp := now)];
      posts := posts + [Delivery(ReadCb, sessions[source].id, data)];
    }

    /** The sweep over the table, in any order. */
    method OnScan(now: int)
      requires Valid()
      modifies this`sessions, this`history
      ensures Valid() && history == old(history) + [Scan(now)]
      ensures forall p :: p in sessions <==> p in old(sessions) && now - old(sessions)[p].stamp <= 1_000_000 * timeout
      ensures forall p :: p in sessions ==> sessions[p] == old(sessions)[p]
    {
      var left := sessions.Keys;
      while left != {}
        modifies this`sessions
        invariant left <= sessions.Keys
        invariant forall p :: p in sessions <==> p in left || (p in old(sessions) && !Expired(old(sessions)[p], now, timeout))
        invariant forall p :: p in sessions ==> p in old(sessions) && sessions[p] == old(sessions)[p]
        decreases left
      {
        var p :| p in left;
        left := left - {p};
        if now - sessions[p].stamp > timeout * MS {
          sessions := sessions - {p};
        }
      }
      AfterStep(history, Scan(now), timeout);
      history := history + [Scan(now)];
      assert sessions == Step(After(old(history), timeout), Scan(now), timeout).sessions;
    }
  }
}
