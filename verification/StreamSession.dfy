/**
 * The server session and the client of src/net/inet.cpp in imperative form: two buffers, the
 * recorded interest, direct and queued sending, and the event handler with its split loop.
 * Kernel answers are parameters.
 */
module StreamSessions {
  import opened Base
  import opened Framing
  import opened SendPath
  import opened StreamBuffers

  datatype IoStatus = Success | TryAgain | Disconnected | Failed

  /** The size of the stack buffer of stream_recv, UINT16_MAX. */
  const EXTRA_SPACE: nat := 65535

  /** Why the kernel stops serving reads or writes. */
  datatype Refusal = Later | Gone | Broken

  /** What one write event meets: everything leaves, or the kernel takes `n` bytes and then refuses. */
  datatype WriteScript = AllTaken | Stops(n: nat, why: Refusal)

  /** SO_ERROR as read on an error event. */
  datatype SocketError = NoError | PeerReset | OtherError

  /** stream_send on the send buffer, with the kernel's answer. */
  method StreamSend(buf: StreamBuffer, taken: nat, refusal: Option<Refusal>) returns (status: IoStatus)
    requires buf.Valid() && taken <= |buf.content| && (refusal.Some? ==> taken == 0)
    modifies buf, buf.buffer
    ensures buf.Valid() && (buf.buffer == old(buf.buffer) || fresh(buf.buffer))
    ensures buf.content == old(buf.content)[taken..]
    ensures status == match refusal
                      case None => Success
                      case Some(Later) => TryAgain
                      case Some(Gone) => Disconnected
                      case Some(Broken) => Failed
  {
    match refusal
    case Some(Later) => return TryAgain;
    case Some(Gone) => return Disconnected;
    case Some(Broken) => return Failed;
    case None =>
      buf.Pop(taken);
      return Success;
  }

  /** stream_recv, with the bytes read or the kernel's refusal (Gone stands for end of file and ECONNRESET). */
  method StreamRecv(buf: StreamBuffer, data: seq<byte>, refusal: Option<Refusal>) returns (status: IoStatus)
    requires buf.Valid()
    requires if refusal.Some? then data == []
             else 0 < |data| <= buf.buffer.Length - buf.writer + EXTRA_SPACE
    modifies buf, buf.buffer
    ensures buf.Valid() && (buf.buffer == old(buf.buffer) || fresh(buf.buffer))
    ensures buf.content == old(buf.content) + data
    ensures status == match refusal
                      case None => Success
                      case Some(Later) => TryAgain
                      case Some(Gone) => Disconnected
                      case Some(Broken) => Failed
  {
    match refusal
    case Some(Later) => return TryAgain;
    case Some(Gone) => return Disconnected;
    case Some(Broken) => return Failed;
    case None =>
      var spilled := ReadInto(buf, data);
      return Success;
  }

  /** The kernel cannot refuse after taking everything: the loop has stopped by then. */
  predicate FitsQueue(script: WriteScript, queued: nat) {
    script.Stops? ==> script.n < queued || (script.n == 0 && queued == 0)
  }

  /** The endpoint after a write event. */
  function AfterWrite(e: Endpoint, script: WriteScript): Endpoint
    requires FitsQueue(script, |e.queued|)
  {
    if script.AllTaken? then Flush(e, |e.queued|) else e.(queued := e.queued[script.n..])
  }

  function StatusOf(refusal: Refusal): IoStatus {
    match refusal
    case Later => TryAgain
    case Gone => Disconnected
    case Broken => Failed
  }

  /** Reads until the kernel refuses; `input` is what it serves before that, in reads of any size. */
  method ReadLoop(buf: StreamBuffer, input: seq<byte>, end: Refusal) returns (status: IoStatus)
    requires buf.Valid()
    modifies buf, buf.buffer
    ensures buf.Valid() && (buf.buffer == old(buf.buffer) || fresh(buf.buffer))
    ensures status == StatusOf(end) && buf.content == old(buf.content) + input
  {
    var got := 0;
    while true
      invariant buf.Valid() && (buf.buffer == old(buf.buffer) || fresh(buf.buffer))
      invariant got <= |input| && buf.content + input[got..] == old(buf.content) + input
      decreases |input| - got
    {
      var n := 0;
      if got < |input| {
        var space := buf.Space();
        n :| 0 < n <= |input| - got && n <= space + EXTRA_SPACE;
      }
      status := StreamRecv(buf, input[got..got + n], if n > 0 then None else Some(end));
      assert input[got..] == input[got..got + n] + input[got + n..];
      got := got + n;
      if status != Success {
        assert input[got..] == [];
        return;
      }
    }
  }

  /** Sends until the buffer is empty or the kernel refuses; `status` says which. */
  method SendLoop(buf: StreamBuffer, script: WriteScript) returns (status: IoStatus)
    requires buf.Valid()
    requires FitsQueue(script, |buf.content|)
    modifies buf, buf.buffer
    ensures buf.Valid() && (buf.buffer == old(buf.buffer) || fresh(buf.buffer))
    ensures status == if script.AllTaken? then Success else StatusOf(script.why)
    ensures buf.content == old(buf.content)[if script.AllTaken? then |old(buf.content)| else script.n..]
  {
    ghost var goal := buf.content[if script.AllTaken? then |buf.content| else script.n..];
    var size := buf.Size();
    var left: nat := match script case AllTaken => size case Stops(n, _) => n;
    while true
      invariant buf.Valid() && (buf.buffer == old(buf.buffer) || fresh(buf.buffer))
      invariant left <= |buf.content| && buf.content[left..] == goal
      invariant if script.AllTaken? then left == |buf.content| else FitsQueue(Stops(left, script.why), |buf.content|)
      decreases left
    {
      var n := 0;
      var refused := None;
      if left > 0 {
        n :| 0 < n <= left;
      } else if script.Stops? {
        refused := Some(script.why);
      }
      status := StreamSend(buf, n, refused);
      left := left - n;
      if status != Success {
        assert buf.content[0..] == buf.content;
        return;
      }
      var empty := buf.Empty();
      if empty {
        return;
      }
    }
  }

  /** The split loop: cut every complete frame off the front of the buffer, in order. */
  method SplitLoop(buf: StreamBuffer, split: Split) returns (frames: seq<seq<byte>>)
    requires buf.Valid() && WithinSlice(split)
    modifies buf, buf.buffer
    ensures buf.Valid() && (buf.buffer == old(buf.buffer) || fresh(buf.buffer))
    ensures Parsed(frames, buf.content) == Parse(split, old(buf.content))
  {
    frames := [];
    ghost var whole := Parse(split, buf.content);
    while true
      invariant buf.Valid() && (buf.buffer == old(buf.buffer) || fresh(buf.buffer))
      invariant Resumes(split, frames, buf.content, whole)
      decreases |buf.content|
    {
      var size := buf.Size();
      var slice := buf.Front(size);
      assert slice == buf.content;
      var len := split(slice);
      CutFrame(split, frames, slice, whole);
      if len <= 0 {
        return;
      }
      var frame := buf.Front(len);
      frames := frames + [frame];
      buf.Pop(len);
    }
  }

  /** Cutting the frames of `s` after `frames` gives `whole`. */
  ghost predicate Resumes(split: Split, frames: seq<seq<byte>>, s: seq<byte>, whole: Parsed)
    requires WithinSlice(split)
  {
    Parsed(frames + Parse(split, s).frames, Parse(split, s).rest) == whole
  }

  lemma CutFrame(split: Split, frames: seq<seq<byte>>, s: seq<byte>, whole: Parsed)
    requires WithinSlice(split) && Resumes(split, frames, s, whole)
    ensures split(s) <= |s|
    ensures if split(s) <= 0 then whole == Parsed(frames, s)
            else Resumes(split, frames + [s[..split(s)]], s[split(s)..], whole)
  {
    if split(s) <= 0 {
      assert frames + [] == frames;
    } else {
      var p := Parse(split, s[split(s)..]);
      assert frames + ([s[..split(s)]] + p.frames) == (frames + [s[..split(s)]]) + p.frames;
    }
  }

  /** Some branch of the handler meets an error other than a departed peer. */
  predicate Breaks(events: Interest, end: Refusal, script: WriteScript, err: SocketError) {
    || (Read in events && end == Broken)
    || (Write in events && script.Stops? && script.why == Broken)
    || (Error in events && err == OtherError)
  }

  /** Some branch of the handler learns that the peer is gone. */
  predicate Departs(events: Interest, end: Refusal, script: WriteScript, err: SocketError) {
    || (Read in events && end == Gone)
    || (Write in events && script.Stops? && script.why == Gone)
    || (Error in events && err == PeerReset)
  }

  /** A server session. Its send side implements the endpoint of module SendPath. */
  class StreamSession {
    const recvBuf: StreamBuffer
    const sendBuf: StreamBuffer
    var recorded: Interest
    var outbox: seq<Interest>          // enable tasks posted by update_event
    var fragments: seq<seq<byte>>      // frames handed to on_fragment, oldest first
    var stops: nat                     // calls of stop() made by on_disconnect and on_session_error

    ghost predicate Valid()
      reads this, recvBuf, sendBuf, recvBuf.buffer, sendBuf.buffer
    {
      && recvBuf != sendBuf && recvBuf.buffer != sendBuf.buffer
      && recvBuf.Valid() && sendBuf.Valid()
    }

    ghost function Abs(): Endpoint
      reads this, sendBuf
    {
      Endpoint(true, sendBuf.content, recorded, outbox)
    }

    /** A session as accept leaves it, after start(). */
    constructor ()
      ensures Valid() && fresh(recvBuf) && fresh(sendBuf) && fresh(recvBuf.buffer) && fresh(sendBuf.buffer)
      ensures Abs() == SERVER_INIT.ep && recvBuf.content == [] && fragments == [] && stops == 0
    {
      recvBuf := new StreamBuffer(65535);
      sendBuf := new StreamBuffer(65535);
      recorded, outbox := {Read, Error}, [{Read, Error}];
      fragments, stops := [], 0;
    }

    /** A stream that asks for no events yet. */
    constructor Idle()
      ensures Valid() && fresh(recvBuf) && fresh(sendBuf) && fresh(recvBuf.buffer) && fresh(sendBuf.buffer)
      ensures Abs() == Endpoint(true, [], {}, []) && recvBuf.content == [] && fragments == [] && stops == 0
    {
      recvBuf := new StreamBuffer(65535);
      sendBuf := new StreamBuffer(65535);
      recorded, outbox := {}, [];
      fragments, stops := [], 0;
    }

    method UpdateEvent(types: Interest)
      modifies this`recorded, this`outbox
      ensures Abs() == SendPath.UpdateEvent(old(Abs()), types)
    {
      outbox := outbox + [types];
      recorded := types;
    }

    /**
     * A send task. When it tries send(), the kernel takes `n` bytes or refuses; a refusal other
     * than Later drops the data.
     */
    method PostSendTask(data: seq<byte>, n: nat, refusal: Option<Refusal>)
      requires Valid() && n <= |data|
      modifies this`recorded, this`outbox, sendBuf, sendBuf.buffer
      ensures Valid() && (sendBuf.buffer == old(sendBuf.buffer) || fresh(sendBuf.buffer))
      ensures Abs() == if SendsDirectly(old(Abs())) && refusal.Some? && refusal.value != Later then old(Abs())
                       else Post(old(Abs()), data, if refusal.None? then Sent(n) else Again)
    {
      var empty := sendBuf.Empty();
      if !empty {
        sendBuf.Insert(data);
      } else if refusal.None? {
        if n != |data| {
          QueueRest(data[n..]);
        }
      } else if refusal.value == Later {
        QueueRest(data);
      }
    }

    /** Queues what the kernel did not take and asks for the write event. */
    method QueueRest(left: seq<byte>)
      requires Valid() && sendBuf.content == []
      modifies this`recorded, this`outbox, sendBuf, sendBuf.buffer
      ensures Valid() && (sendBuf.buffer == old(sendBuf.buffer) || fresh(sendBuf.buffer))
      ensures Abs() == SendPath.UpdateEvent(old(Abs()).(queued := left), old(recorded) + {Write})
    {
      sendBuf.Insert(left);
      assert [] + left == left;
      UpdateEvent(recorded + {Write});
    }

    /** The read branch of the handler. */
    method ReadAll(input: seq<byte>, end: Refusal) returns (disconnected: bool)
      requires Valid()
      modifies recvBuf, recvBuf.buffer
      ensures Valid() && (recvBuf.buffer == old(recvBuf.buffer) || fresh(recvBuf.buffer))
      ensures disconnected <==> end == Gone
      ensures recvBuf.content == if end == Broken then [] else old(recvBuf.content) + input
    {
      var status := ReadLoop(recvBuf, input, end);
      disconnected := status == Disconnected;
      if status == Failed {
        recvBuf.Clear();
      }
    }

    /** The write branch of the handler; an error there clears the receive buffer. */
    method WriteAll(script: WriteScript) returns (disconnected: bool)
      requires Valid() && FitsQueue(script, |sendBuf.content|)
      modifies this`recorded, this`outbox, recvBuf, sendBuf, sendBuf.buffer
      ensures Valid() && (sendBuf.buffer == old(sendBuf.buffer) || fresh(sendBuf.buffer))
      ensures recvBuf.buffer == old(recvBuf.buffer)
      ensures disconnected <==> script.Stops? && script.why == Gone
      ensures recvBuf.content == if script.Stops? && script.why == Broken then [] else old(recvBuf.content)
      ensures Abs() == AfterWrite(old(Abs()), script)
    {
      var status := SendLoop(sendBuf, script);
      disconnected := status == Disconnected;
      if status == Success {
        UpdateEvent(recorded - {Write});
      } else if status == Failed {
        recvBuf.Clear();
      }
    }

    /** The error branch: true when the peer is gone; any other error clears both buffers. */
    method HandleError(events: Interest, err: SocketError) returns (disconnected: bool)
      requires Valid()
      modifies this`stops, recvBuf, sendBuf
      ensures Valid() && recvBuf.buffer == old(recvBuf.buffer) && sendBuf.buffer == old(sendBuf.buffer)
      ensures disconnected <==> Error in events && err == PeerReset
      ensures stops == old(stops) + if Error in events && err == OtherError then 1 else 0
      ensures recvBuf.content == if Error in events && err == OtherError then [] else old(recvBuf.content)
      ensures sendBuf.content == if Error in events && err == OtherError then [] else old(sendBuf.content)
    {
      disconnected := Error in events && err == PeerReset;
      if Error in events && err == OtherError {
        recvBuf.Clear();
        sendBuf.Clear();
        stops := stops + 1;
      }
    }

    /** The read branch, then the write branch. */
    method Transfer(events: Interest, input: seq<byte>, end: Refusal, script: WriteScript) returns (disconnected: bool)
      requires Valid() && (Write in events ==> FitsQueue(script, |sendBuf.content|))
      modifies this`recorded, this`outbox, recvBuf, sendBuf, recvBuf.buffer, sendBuf.buffer
      ensures Valid() && (recvBuf.buffer == old(recvBuf.buffer) || fresh(recvBuf.buffer))
      ensures sendBuf.buffer == old(sendBuf.buffer) || fresh(sendBuf.buffer)
      ensures disconnected <==> Departs(events, end, script, NoError)
      ensures recvBuf.content == if Breaks(events, end, script, NoError) then []
                                 else old(recvBuf.content) + if Read in events then input else []
      ensures Abs() == if Write in events then AfterWrite(old(Abs()), script) else old(Abs())
    {
      disconnected := false;
      assert recvBuf.content + [] == recvBuf.content;
      if Read in events {
        disconnected := ReadAll(input, end);
      }
      if Write in events {
        var gone := WriteAll(script);
        disconnected := disconnected || gone;
      }
    }

    /** The end of the handler: hand over every complete frame, then let a departed peer go. */
    method Deliver(disconnected: bool, split: Split)
      requires Valid() && WithinSlice(split)
      modifies this`fragments, this`stops, recvBuf, sendBuf, recvBuf.buffer
      ensures Valid() && (recvBuf.buffer == old(recvBuf.buffer) || fresh(recvBuf.buffer))
      ensures var p := Parse(split, old(recvBuf.content));
              fragments == old(fragments) + p.frames && recvBuf.content == if disconnected then [] else p.rest
      ensures sendBuf.buffer == old(sendBuf.buffer)
      ensures sendBuf.content == if disconnected then [] else old(sendBuf.content)
      ensures stops == old(stops) + if disconnected then 1 else 0
    {
      var frames := SplitLoop(recvBuf, split);
      fragments := fragments + frames;
      if disconnected {
        recvBuf.Clear();
        sendBuf.Clear();
        stops := stops + 1;
      }
    }

    /** The error branch and what follows it; `gone` says that an earlier branch lost the peer. */
    method Finish(events: Interest, err: SocketError, gone: bool, split: Split)
      requires Valid() && WithinSlice(split)
      modifies this`fragments, this`stops, recvBuf, sendBuf, recvBuf.buffer
      ensures Valid() && (recvBuf.buffer == old(recvBuf.buffer) || fresh(recvBuf.buffer))
      ensures sendBuf.buffer == old(sendBuf.buffer)
      ensures var other := Error in events && err == OtherError;
              var departs := gone || (Error in events && err == PeerReset);
              var p := Parse(split, if other then [] else old(recvBuf.content));
              && fragments == old(fragments) + p.frames
              && recvBuf.content == (if departs then [] else p.rest)
              && sendBuf.content == (if other || departs then [] else old(sendBuf.content))
              && stops == old(stops) + (if other then 1 else 0) + (if departs then 1 else 0)
    {
      var reset := HandleError(events, err);
      Deliver(gone || reset, split);
    }

    /**
     * The session's event handler. Without an error every complete frame received so far is handed
     * over, in the order of one greedy parse, before a disconnect clears the buffers.
     */
    method OnEvent(events: Interest, input: seq<byte>, end: Refusal, script: WriteScript, err: SocketError, split: Split)
      requires Valid() && WithinSlice(split)
      requires Write in events ==> FitsQueue(script, |sendBuf.content|)
      modifies this, recvBuf, sendBuf, recvBuf.buffer, sendBuf.buffer
      ensures Valid() && (recvBuf.buffer == old(recvBuf.buffer) || fresh(recvBuf.buffer))
      ensures sendBuf.buffer == old(sendBuf.buffer) || fresh(sendBuf.buffer)
      ensures var gone := Departs(events, end, script, err);
              var data := if Breaks(events, end, script, err) then []
                          else old(recvBuf.content) + if Read in events then input else [];
              && fragments == old(fragments) + Parse(split, data).frames
              && recvBuf.content == (if gone then [] else Parse(split, data).rest)
              && stops == old(stops) + (if Error in events && err == OtherError then 1 else 0) + (if gone then 1 else 0)
      ensures var clears := Departs(events, end, script, err) || (Error in events && err == OtherError);
              var e := if Write in events then AfterWrite(old(Abs()), script) else old(Abs());
              Abs() == if clears then e.(queued := []) else e
      // A failed read, a failed write and any other socket error drop what was received,
      ensures (Read in events && end == Broken) || (Write in events && script.Stops? && script.why == Broken)
              || (Error in events && err == OtherError) ==>
                fragments == old(fragments) && recvBuf.content == []
      // a departed peer, seen by the read, the write or SO_ERROR, is let go with both buffers cleared,
      ensures (Read in events && end == Gone) || (Write in events && script.Stops? && script.why == Gone)
              || (Error in events && err == PeerReset) ==>
                recvBuf.content == [] && sendBuf.content == [] && stops > old(stops)
      // and the write event is asked for no longer exactly when everything queued has left.
      ensures forall x :: x in recorded <==> x in old(recorded) && !(x == Write && Write in events && script.AllTaken?)
      ensures outbox == if Write in events && script.AllTaken? then old(outbox) + [recorded] else old(outbox)
    {
      assert Parse(split, []) == Parsed([], []);
      var gone := Transfer(events, input, end, script);
      Finish(events, err, gone, split);
    }
  }

  /**
   * One turn of the connection: maybe a send task, then an event that may report the read bit, with
   * `input` to be read, and the write bit.
   */
  datatype Arrival = Arrival(send: Option<seq<byte>>, readable: bool, input: seq<byte>, writable: bool)

  /** How the last event ends: the peer stays, or is seen gone by the read, by the write or by SO_ERROR. */
  datatype Ending = Open | EndOfStream | BrokenPipe | ResetByPeer

  function Bytes(a: Arrival): seq<byte> {
    if a.readable then a.input else []
  }

  /** All bytes that are read. */
  function Received(arrivals: seq<Arrival>): seq<byte> {
    if arrivals == [] then [] else Received(arrivals[..|arrivals| - 1]) + Bytes(arrivals[|arrivals| - 1])
  }

  function EventsOf(a: Arrival, ending: Ending): Interest {
    (if a.readable then {Read} else {}) + (if a.writable then {Write} else {})
    + (if ending == ResetByPeer then {Error} else {})
  }

  /** The event breaks nothing, and the peer departs with it unless the ending is open. */
  lemma EndingDeparts(a: Arrival, ending: Ending, end: Refusal, script: WriteScript, err: SocketError)
    requires (ending == EndOfStream ==> a.readable) && (ending == BrokenPipe ==> a.writable)
    requires end == if ending == EndOfStream then Gone else Later
    requires err == if ending == ResetByPeer then PeerReset else NoError
    requires if ending == BrokenPipe then script.Stops? && script.why == Gone else script.AllTaken? || script.why == Later
    ensures var events := EventsOf(a, ending);
            && !Breaks(events, end, script, err)
            && (Departs(events, end, script, err) <==> ending != Open)
            && (Read in events <==> a.readable)
  {
  }

  /** One turn; the kernel answers sends in any way that is not an error other than the peer's departure. */
  method Receive(session: StreamSession, a: Arrival, ending: Ending, split: Split)
    requires session.Valid() && WithinSlice(split)
    requires (ending == EndOfStream ==> a.readable) && (ending == BrokenPipe ==> a.writable)
    modifies session, session.recvBuf, session.sendBuf, session.recvBuf.buffer, session.sendBuf.buffer
    ensures session.Valid()
    ensures session.recvBuf.buffer == old(session.recvBuf.buffer) || fresh(session.recvBuf.buffer)
    ensures session.sendBuf.buffer == old(session.sendBuf.buffer) || fresh(session.sendBuf.buffer)
    ensures var p := Parse(split, old(session.recvBuf.content) + Bytes(a));
            && session.fragments == old(session.fragments) + p.frames
            && session.recvBuf.content == (if ending == Open then p.rest else [])
    ensures session.stops == old(session.stops) + if ending == Open then 0 else 1
  {
    if a.send.Some? {
      Send(session, a.send.value);
    }
    var script := AnyScript(session, ending);
    var end := if ending == EndOfStream then Gone else Later;
    var err := if ending == ResetByPeer then PeerReset else NoError;
    EndingDeparts(a, ending, end, script, err);
    session.OnEvent(EventsOf(a, ending), a.input, end, script, err, split);
  }

  /** A send task meeting any answer of the kernel. */
  method Send(session: StreamSession, data: seq<byte>)
    requires session.Valid()
    modifies session`recorded, session`outbox, session.sendBuf, session.sendBuf.buffer
    ensures session.Valid() && (session.sendBuf.buffer == old(session.sendBuf.buffer) || fresh(session.sendBuf.buffer))
  {
    var n: int :| 0 <= n <= |data|;
    if * {
      session.PostSendTask(data, n, None);
    } else {
      session.PostSendTask(data, n, Some(Later));
    }
  }

  /** What a write event may meet when the kernel takes any part of the queue. */
  method AnyScript(session: StreamSession, ending: Ending) returns (script: WriteScript)
    requires session.Valid()
    ensures FitsQueue(script, |session.sendBuf.content|)
    ensures ending == BrokenPipe ==> script.Stops? && script.why == Gone
    ensures ending != BrokenPipe ==> script.AllTaken? || script.why == Later
  {
    var queued := session.sendBuf.Size();
    var n: int :| 0 <= n <= queued && (queued > 0 ==> n < queued);
    if ending == BrokenPipe {
      script := Stops(n, Gone);
    } else if * {
      script := Stops(n, Later);
    } else {
      script := AllTaken;
    }
  }

  /**
   * A whole connection: however the stream is cut into events, and whatever is sent meanwhile, the
   * fragments handed over are those of one greedy parse of all bytes read. The last bytes may come in
   * the very event that shows the peer gone, and a stop follows once.
   */
  method ReceiveStream(session: StreamSession, arrivals: seq<Arrival>, ending: Ending, split: Split)
    requires session.Valid() && session.recvBuf.content == [] && session.fragments == []
    requires WithinSlice(split) && PrefixStable(split)
    requires ending != Open ==> arrivals != []
    requires ending == EndOfStream ==> arrivals[|arrivals| - 1].readable
    requires ending == BrokenPipe ==> arrivals[|arrivals| - 1].writable
    modifies session, session.recvBuf, session.sendBuf, session.recvBuf.buffer, session.sendBuf.buffer
    ensures session.Valid()
    ensures var whole := Parse(split, Received(arrivals));
            session.fragments == whole.frames && session.recvBuf.content == if ending == Open then whole.rest else []
    ensures session.stops == old(session.stops) + if ending == Open then 0 else 1
  {
    ghost var fed := Parsed([], []);
    assert Parse(split, []) == fed;
    var last := if ending == Open then |arrivals| else |arrivals| - 1;
    for i := 0 to last
      invariant session.Valid()
      invariant session.recvBuf.buffer == old(session.recvBuf.buffer) || fresh(session.recvBuf.buffer)
      invariant session.sendBuf.buffer == old(session.sendBuf.buffer) || fresh(session.sendBuf.buffer)
      invariant fed == Parse(split, Received(arrivals[..i])) && session.stops == old(session.stops)
      invariant session.fragments == fed.frames && session.recvBuf.content == fed.rest
    {
      Receive(session, arrivals[i], Open, split);
      fed := ParseOn(split, arrivals, i);
    }
    assert arrivals[..|arrivals|] == arrivals;
    if ending != Open {
      Receive(session, arrivals[last], ending, split);
      fed := ParseOn(split, arrivals, last);
    }
  }

  /** One more arrival continues the parse of what has been received. */
  lemma ParseOn(split: Split, arrivals: seq<Arrival>, i: nat) returns (p: Parsed)
    requires WithinSlice(split) && PrefixStable(split) && i < |arrivals|
    ensures var before := Parse(split, Received(arrivals[..i]));
            var more := Parse(split, before.rest + Bytes(arrivals[i]));
            p == Parsed(before.frames + more.frames, more.rest) == Parse(split, Received(arrivals[..i + 1]))
  {
    assert arrivals[..i + 1][..i] == arrivals[..i];
    ParseAppend(split, Received(arrivals[..i]), Bytes(arrivals[i]));
    p := Parse(split, Received(arrivals[..i + 1]));
  }

  datatype ConnectState = Unconnected | Connecting | Connected

  /** What connect() returns: success, an error, or EINPROGRESS. */
  datatype ConnectAnswer = Done | Refused(err: nat) | InProgress

  const ETIMEDOUT: nat := 110

  /**
   * The client: like a session, but sends wait in the buffer until the connection is up, and its
   * handler leaves SO_ERROR to the read and write branches when it only says that the peer is gone.
   */
  class StreamClient {
    const stream: StreamSession        // the buffers, the channel and the handler shared with sessions
    var state: ConnectState            // connected_
    var started: bool
    var timerWatched: bool             // the connect timer's event is enabled
    var errors: seq<nat>               // calls of on_error while connecting

    ghost predicate Valid()
      reads this, stream, stream.recvBuf, stream.sendBuf, stream.recvBuf.buffer, stream.sendBuf.buffer
    {
      stream.Valid()
    }

    ghost function Abs(): Endpoint
      reads this, stream, stream.sendBuf
    {
      stream.Abs().(connected := state == Connected)
    }

    constructor ()
      ensures Valid() && fresh(stream) && fresh(stream.recvBuf) && fresh(stream.sendBuf)
      ensures fresh(stream.recvBuf.buffer) && fresh(stream.sendBuf.buffer)
      ensures Abs() == Endpoint(false, [], {}, []) && state == Unconnected && !started && errors == []
      ensures stream.recvBuf.content == [] && stream.fragments == [] && stream.stops == 0
    {
      stream := new StreamSession.Idle();
      state, started, timerWatched, errors := Unconnected, false, false, [];
    }

    /**
     * connect(): only an unconnected client tries, and each of the three answers leaves it where it
     * says. A first attempt in progress is the initial state of the send path.
     */
    method Connect(answer: ConnectAnswer)
      requires Valid()
      modifies this, stream
      ensures Valid()
      ensures old(state) != Unconnected ==>
                Abs() == old(Abs()) && state == old(state) && started == old(started) && errors == old(errors)
                && timerWatched == old(timerWatched)
      ensures old(state) == Unconnected ==>
                match answer
                case Done =>
                  state == Connected && errors == old(errors) && started && timerWatched == old(timerWatched)
                  && Abs() == if old(started) then old(Abs()).(connected := true) else Start(old(Abs()))
                case Refused(err) =>
                  state == Unconnected && errors == old(errors) + [err] && Abs() == old(Abs()) && started == old(started)
                  && timerWatched == old(timerWatched)
                case InProgress =>
                  state == Connecting && errors == old(errors) && timerWatched && started == old(started)
                  && Abs() == SendPath.UpdateEvent(old(Abs()), {Write})
      ensures old(Abs()) == Endpoint(false, [], {}, []) && old(state) == Unconnected && answer.InProgress? ==>
                Abs() == CLIENT_INIT.ep
      ensures stream.fragments == old(stream.fragments) && stream.stops == old(stream.stops)
    {
      if state != Unconnected {
        return;
      }
      state := Connecting;
      match answer
      case Done =>
        state := Connected;
        StartOnce();
      case Refused(err) =>
        errors := errors + [err];
        state := Unconnected;
      case InProgress =>
        stream.UpdateEvent({Write});
        timerWatched := true;
    }

    /** The event handler of an attempt in progress; `err` is SO_ERROR. */
    method OnConnectEvent(events: Interest, err: nat)
      requires Valid()
      modifies this, stream
      ensures Valid()
      ensures Write !in events ==>
                Abs() == old(Abs()) && state == old(state) && started == old(started) && errors == old(errors)
                && timerWatched == old(timerWatched)
      ensures Write in events && err != 0 ==>
                state == Unconnected && errors == old(errors) + [err] && !timerWatched && started == old(started)
                && Abs() == old(Abs()).(connected := false)
      ensures Write in events && err == 0 ==>
                state == Connected && errors == old(errors) && !timerWatched && started
                && Abs() == if old(started) then old(Abs()).(connected := true) else Start(old(Abs()))
      ensures stream.fragments == old(stream.fragments) && stream.stops == old(stream.stops)
    {
      if Write in events {
        if err != 0 {
          state := Unconnected;
          timerWatched := false;
          errors := errors + [err];
          return;
        }
        state := Connected;
        timerWatched := false;
        StartOnce();
      }
    }

    /** The connect timer has expired. */
    method OnConnectTimeout()
      modifies this`state, this`timerWatched, this`errors
      ensures !timerWatched
      ensures state == if old(state) == Connected then Connected else Unconnected
      ensures errors == if old(state) == Connected then old(errors) else old(errors) + [ETIMEDOUT]
    {
      timerWatched := false;
      if state != Connected {
        state := Unconnected;
        errors := errors + [ETIMEDOUT];
      }
    }

    method PostSendTask(data: seq<byte>, n: nat, refusal: Option<Refusal>)
      requires Valid() && n <= |data|
      modifies stream`recorded, stream`outbox, stream.sendBuf, stream.sendBuf.buffer
      ensures Valid() && (stream.sendBuf.buffer == old(stream.sendBuf.buffer) || fresh(stream.sendBuf.buffer))
      ensures Abs() == if SendsDirectly(old(Abs())) && refusal.Some? && refusal.value != Later then old(Abs())
                       else Post(old(Abs()), data, if refusal.None? then Sent(n) else Again)
    {
      if state != Connected {
        stream.sendBuf.Insert(data);
      } else {
        stream.PostSendTask(data, n, refusal);
      }
    }

    /** start(): the first time it asks for reads, and for writes when the buffer holds bytes. */
    method StartOnce()
      requires Valid() && state == Connected
      modifies this`started, stream`recorded, stream`outbox
      ensures Valid() && started
      ensures Abs() == if old(started) then old(Abs()) else Start(old(Abs()))
    {
      if started {
        return;
      }
      started := true;
      var empty := stream.sendBuf.Empty();
      if empty {
        assert {Read, Error} == {Read, Error} + {};
        stream.UpdateEvent({Read, Error});
      } else {
        assert {Read, Write, Error} == {Read, Error} + {Write};
        stream.UpdateEvent({Read, Write, Error});
      }
    }

    /**
     * The handler of a started client. SO_ERROR never makes it let the peer go; otherwise it does what
     * the handler of a session does. `stream.stops` counts on_disconnect and on_error.
     */
    method OnEvent(events: Interest, input: seq<byte>, end: Refusal, script: WriteScript, err: SocketError, split: Split)
      requires Valid() && WithinSlice(split)
      requires Write in events ==> FitsQueue(script, |stream.sendBuf.content|)
      modifies stream, stream.recvBuf, stream.sendBuf, stream.recvBuf.buffer, stream.sendBuf.buffer
      ensures Valid() && (stream.recvBuf.buffer == old(stream.recvBuf.buffer) || fresh(stream.recvBuf.buffer))
      ensures stream.sendBuf.buffer == old(stream.sendBuf.buffer) || fresh(stream.sendBuf.buffer)
      ensures var gone := Departs(events - {Error}, end, script, err);
              var other := Error in events && err == OtherError;
              var data := if Breaks(events, end, script, err) then []
                          else old(stream.recvBuf.content) + if Read in events then input else [];
              var e := if Write in events then AfterWrite(old(Abs()), script) else old(Abs());
              && stream.fragments == old(stream.fragments) + Parse(split, data).frames
              && stream.recvBuf.content == (if gone then [] else Parse(split, data).rest)
              && stream.stops == old(stream.stops) + (if other then 1 else 0) + (if gone then 1 else 0)
              && Abs() == if gone || other then e.(queued := []) else e
      ensures (Read in events && end == Broken) || (Write in events && script.Stops? && script.why == Broken)
              || (Error in events && err == OtherError) ==>
                stream.fragments == old(stream.fragments) && stream.recvBuf.content == []
      ensures (Read in events && end == Gone) || (Write in events && script.Stops? && script.why == Gone) ==>
                stream.recvBuf.content == [] && stream.sendBuf.content == [] && stream.stops > old(stream.stops)
      ensures forall x :: x in stream.recorded <==>
                x in old(stream.recorded) && !(x == Write && Write in events && script.AllTaken?)
      ensures stream.outbox ==
              if Write in events && script.AllTaken? then old(stream.outbox) + [stream.recorded] else old(stream.outbox)
    {
      var left := if err == PeerReset then NoError else err;
      stream.OnEvent(events, input, end, script, left, split);
    }
  }

  // ---------------------------------------------------------------- errors

  /** Complete frames that an event finds are not handed over exactly when one of its branches fails. */
  lemma FramesAreLostIff(events: Interest, end: Refusal, script: WriteScript, err: SocketError, split: Split, data: seq<byte>)
    requires WithinSlice(split)
    ensures Parse(split, if Breaks(events, end, script, err) then [] else data).frames == Parse(split, data).frames
            <==> !Breaks(events, end, script, err) || split(data) <= 0
  {
    assert split([]) <= 0;
  }

  /** A failing write event throws away a complete frame that was read in the same event, and the session goes on. */
  method WriteErrorLosesFrame(frame: seq<byte>, split: Split) returns (session: StreamSession)
    requires WithinSlice(split) && split(frame) == |frame| > 0
    ensures fresh(session) && session.Valid()
    ensures session.fragments == [] && session.recvBuf.content == [] && session.stops == 0
    ensures Parse(split, frame).frames == [frame]
  {
    session := new StreamSession();
    session.PostSendTask([1], 0, Some(Later));
    session.OnEvent({Read, Write}, frame, Later, Stops(0, Broken), NoError, split);
    assert split([]) <= 0;
    assert frame[..|frame|] == frame && frame[|frame|..] == [];
  }
}
