/** End-to-end delivery for the length-prefix codec of examples/tcp_example.cpp. */
module PacketDelivery {
  import opened Base
  import opened Codecs
  import opened EndToEnd
  import opened Framing

  /** With the length-prefix codec the receiver handles the packets of the first messages, whatever the payloads contain. */
  lemma PacketsArriveInOrder(c: Setup, acts: seq<Action>, t: State, payloads: seq<seq<byte>>)
    requires WithinSlice(c.split) && Run(c, Init(c), acts, t)
    requires c.split == LengthSplit && Sends(c, t.sender.posted) == Packets(payloads)
    requires forall i :: 0 <= i < |payloads| ==> |payloads[i]| <= WORD - 5
    ensures Fragments(t.heavy.ran) <= Packets(payloads)
    ensures Drained(t) ==> Fragments(t.heavy.ran) == Packets(payloads)
  {
    LengthSplitIsStable();
    PacketsAreFrames(payloads);
    MessagesArriveInOrder(c, acts, t);
  }
}
