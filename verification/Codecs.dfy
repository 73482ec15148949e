/** The two split callbacks and the packet builder of the examples, on the bytes they see. */
module Codecs {
  import opened Base
  import opened Framing

  /** uint32_t arithmetic. */
  const WORD: nat := 0x1_0000_0000
  const HEAD: nat := 4

  /** The four bytes of a uint32_t in the order of a little-endian host. */
  function EncodeWord(n: nat): (s: seq<byte>)
    requires n < WORD
    ensures |s| == HEAD
  {
    [(n % 256) as byte, (n / 256 % 256) as byte, (n / 65536 % 256) as byte, (n / 16777216) as byte]
  }

  function DecodeWord(s: seq<byte>): (n: nat)
    requires |s| >= HEAD
    ensures n < WORD
  {
    s[0] as nat + 256 * s[1] as nat + 65536 * s[2] as nat + 16777216 * s[3] as nat
  }

  lemma DecodeEncodeWord(n: nat, more: seq<byte>)
    requires n < WORD
    ensures DecodeWord(EncodeWord(n) + more) == n
  {
    var s := EncodeWord(n) + more;
    assert s[0] as nat == n % 256 && s[1] as nat == n / 256 % 256;
    assert s[2] as nat == n / 65536 % 256 && s[3] as nat == n / 16777216;
    assert n / 65536 == n / 256 / 256 && n / 16777216 == n / 65536 / 256;
  }

  /** data_to_packet of examples/tcp_example.cpp: the length is stored truncated to 32 bits. */
  method DataToPacket(data: seq<byte>) returns (packet: seq<byte>)
    ensures packet == Packet(data)
  {
    packet := [];
    var len := EncodeWord(|data| % WORD);
    for i := 0 to HEAD
      invariant packet == len[..i]
    {
      packet := packet + [len[i]];
    }
    packet := packet + data;
  }

  function Packet(data: seq<byte>): seq<byte> {
    EncodeWord(|data| % WORD) + data
  }

  /** The length-prefix callback; len + 4 is computed in 32 bits and may wrap. */
  function LengthSplit(slice: seq<byte>): int {
    if |slice| < HEAD then 0
    else
      var total := (DecodeWord(slice) + HEAD) % WORD;
      if total <= |slice| then total else 0
  }

  lemma LengthSplitIsStable()
    ensures WithinSlice(LengthSplit) && PrefixStable(LengthSplit)
  {
    forall s: seq<byte>, t: seq<byte> | LengthSplit(s) > 0
      ensures LengthSplit(s + t) == LengthSplit(s)
    {
      assert (s + t)[0] == s[0] && (s + t)[1] == s[1] && (s + t)[2] == s[2] && (s + t)[3] == s[3];
    }
  }

  lemma PacketLength(data: seq<byte>, more: seq<byte>)
    ensures |Packet(data)| == |data| + HEAD && DecodeWord(Packet(data) + more) == |data| % WORD
  {
    assert Packet(data) + more == EncodeWord(|data| % WORD) + (data + more);
    DecodeEncodeWord(|data| % WORD, data + more);
  }

  /** The 32-bit sum makes a packet its own frame exactly up to a payload of 2^32 - 5 bytes. */
  lemma PacketIsFrameIff(data: seq<byte>, more: seq<byte>)
    ensures |data| <= WORD - 5 <==> LengthSplit(Packet(data) + more) == |Packet(data)|
  {
    PacketLength(data, more);
    var sum := |data| % WORD + HEAD;
    assert |data| < WORD ==> |data| % WORD == |data|;
    assert sum < WORD ==> sum % WORD == sum;
    assert sum % WORD < WORD;
  }

  function Packets(messages: seq<seq<byte>>): seq<seq<byte>> {
    seq(|messages|, i requires 0 <= i < |messages| => Packet(messages[i]))
  }

  /** Messages survive packing, any chunking and splitting exactly when every payload is at most 2^32 - 5 bytes. */
  lemma PacketRoundTripIff(messages: seq<seq<byte>>)
    ensures WithinSlice(LengthSplit)
    ensures (forall i :: 0 <= i < |messages| ==> |messages[i]| <= WORD - 5) <==>
            Parse(LengthSplit, Concat(Packets(messages))) == Parsed(Packets(messages), [])
  {
    LengthSplitIsStable();
    if forall i :: 0 <= i < |messages| ==> |messages[i]| <= WORD - 5 {
      PacketsAreFrames(messages);
      ParseConcat(LengthSplit, Packets(messages), []);
      assert Concat(Packets(messages)) + [] == Concat(Packets(messages));
    } else {
      OversizedPacketBreaks(messages);
    }
  }

  lemma PacketsAreFrames(messages: seq<seq<byte>>)
    requires forall i :: 0 <= i < |messages| ==> |messages[i]| <= WORD - 5
    ensures forall i :: 0 <= i < |messages| ==> LengthSplit(Packets(messages)[i]) == |Packets(messages)[i]| > 0
  {
    forall i | 0 <= i < |messages|
      ensures LengthSplit(Packets(messages)[i]) == |Packets(messages)[i]| > 0
    {
      PacketIsFrameIff(messages[i], []);
      assert Packet(messages[i]) + [] == Packet(messages[i]);
    }
  }

  /** The first oversized payload shifts every frame boundary from there on. */
  lemma {:induction false} OversizedPacketBreaks(messages: seq<seq<byte>>)
    requires WithinSlice(LengthSplit)
    requires exists i :: 0 <= i < |messages| && |messages[i]| > WORD - 5
    ensures Parse(LengthSplit, Concat(Packets(messages))).frames != Packets(messages)
  {
    var first := Packet(messages[0]);
    var more := Concat(Packets(messages[1..]));
    assert Packets(messages)[1..] == Packets(messages[1..]);
    var s := Concat(Packets(messages));
    assert s == first + more;
    PacketIsFrameIff(messages[0], more);
    if |messages[0]| <= WORD - 5 {
      assert s[..|first|] == first && s[|first|..] == more;
      var i :| 0 <= i < |messages| && |messages[i]| > WORD - 5;
      assert messages[1..][i - 1] == messages[i];
      OversizedPacketBreaks(messages[1..]);
      assert Parse(LengthSplit, s).frames[1..] == Parse(LengthSplit, more).frames;
    } else if LengthSplit(s) > 0 {
      assert |Parse(LengthSplit, s).frames[0]| == LengthSplit(s) != |first|;
      assert Packets(messages)[0] == first;
    }
  }

  /** A packet is the length, least significant byte first as on a little-endian host, and then the data. */
  lemma PacketLayout(data: seq<byte>)
    ensures |data| < 256 ==> Packet(data) == [|data| as byte, 0, 0, 0] + data
    ensures Packet(data)[4..] == data
    ensures EncodeWord(0x04030201) == [1, 2, 3, 4]
  {
  }

  /** The smallest payload that breaks the framing: 2^32 - 4 bytes, for which the 32-bit sum is 0 and nothing is ever split off. */
  lemma OversizedPayloadIsStuck(data: seq<byte>, more: seq<byte>)
    requires |data| == WORD - 4
    ensures LengthSplit(Packet(data) + more) == 0
  {
    PacketLength(data, more);
  }

  const CRLF2: seq<byte> := [13, 10, 13, 10]

  /** `pattern` starts at position `i`. */
  predicate OccursAt(s: seq<byte>, pattern: seq<byte>, i: nat) {
    i + |pattern| <= |s| && s[i..i + |pattern|] == pattern
  }

  /** std::string_view::find: the first occurrence at or after `from`, or -1. */
  function Find(s: seq<byte>, pattern: seq<byte>, from: nat): (r: int)
    ensures r < 0 ==> forall i: nat :: from <= i ==> !OccursAt(s, pattern, i)
    ensures r >= 0 ==> from <= r && OccursAt(s, pattern, r) && forall i: nat :: from <= i < r ==> !OccursAt(s, pattern, i)
    decreases |s| - from
  {
    if from + |pattern| > |s| then -1
    else if OccursAt(s, pattern, from) then from
    else Find(s, pattern, from + 1)
  }

  /** The delimiter callback of examples/pressure_example.cpp. */
  function DelimiterSplit(slice: seq<byte>): int {
    var pos := Find(slice, CRLF2, 0);
    if pos >= 0 then pos + 4 else 0
  }

  lemma OccursInPrefix(s: seq<byte>, t: seq<byte>, pattern: seq<byte>, i: nat)
    requires i + |pattern| <= |s|
    ensures OccursAt(s + t, pattern, i) <==> OccursAt(s, pattern, i)
  {
    assert (s + t)[i..i + |pattern|] == s[i..i + |pattern|];
  }

  lemma DelimiterSplitIsStable()
    ensures WithinSlice(DelimiterSplit) && PrefixStable(DelimiterSplit)
  {
    forall s: seq<byte>, t: seq<byte> | DelimiterSplit(s) > 0
      ensures DelimiterSplit(s + t) == DelimiterSplit(s)
    {
      var p := Find(s, CRLF2, 0);
      OccursInPrefix(s, t, CRLF2, p);
      forall i: nat | i < p
        ensures !OccursAt(s + t, CRLF2, i)
      {
        OccursInPrefix(s, t, CRLF2, i);
      }
    }
  }

  /** A request whose only delimiter is its end. */
  predicate IsRequest(s: seq<byte>) {
    && |s| >= 4 && OccursAt(s, CRLF2, |s| - 4)
    && forall i: nat :: i < |s| - 4 ==> !OccursAt(s, CRLF2, i)
  }

  /** Data that follows makes and hides no occurrence that fits into `s`. */
  lemma OccurrencesInPrefix(s: seq<byte>, t: seq<byte>, pattern: seq<byte>)
    ensures forall i: nat :: i + |pattern| <= |s| ==> (OccursAt(s + t, pattern, i) <==> OccursAt(s, pattern, i))
  {
    forall i: nat | i + |pattern| <= |s|
      ensures OccursAt(s + t, pattern, i) <==> OccursAt(s, pattern, i)
    {
      OccursInPrefix(s, t, pattern, i);
    }
  }

  /** The first occurrence is the one with none before it. */
  lemma FindIsIff(s: seq<byte>, pattern: seq<byte>, p: nat)
    ensures Find(s, pattern, 0) == p <==>
            OccursAt(s, pattern, p) && forall i: nat :: i < p ==> !OccursAt(s, pattern, i)
  {
  }

  lemma RequestIsFrameIff(s: seq<byte>, more: seq<byte>)
    ensures IsRequest(s) <==> DelimiterSplit(s + more) == |s| > 0
  {
    if |s| >= 4 {
      OccurrencesInPrefix(s, more, CRLF2);
      FindIsIff(s + more, CRLF2, |s| - 4);
    }
  }

  /** A delimiter-framed stream splits back into its requests exactly when each has its only delimiter at its end. */
  lemma RequestRoundTripIff(requests: seq<seq<byte>>)
    ensures WithinSlice(DelimiterSplit)
    ensures (forall i :: 0 <= i < |requests| ==> IsRequest(requests[i])) <==>
            Parse(DelimiterSplit, Concat(requests)) == Parsed(requests, [])
  {
    DelimiterSplitIsStable();
    if forall i :: 0 <= i < |requests| ==> IsRequest(requests[i]) {
      forall i | 0 <= i < |requests|
        ensures DelimiterSplit(requests[i]) == |requests[i]| > 0
      {
        RequestIsFrameIff(requests[i], []);
        assert requests[i] + [] == requests[i];
      }
      ParseConcat(DelimiterSplit, requests, []);
      assert Concat(requests) + [] == Concat(requests);
    }
    if Parse(DelimiterSplit, Concat(requests)) == Parsed(requests, []) {
      forall i | 0 <= i < |requests|
        ensures IsRequest(requests[i])
      {
        ParseConcatConverse(DelimiterSplit, requests, i);
        assert requests[i..][1..] == requests[i + 1..];
        RequestIsFrameIff(requests[i], Concat(requests[i + 1..]));
      }
    }
  }
}
