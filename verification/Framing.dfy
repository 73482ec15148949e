/**
 * The frame-splitting loop of the stream handlers (src/net/inet.cpp), as a function of the
 * user's split callback: 0 or less means "no complete frame yet".
 */
module Framing {
  import opened Base

  type Split = seq<byte> -> int

  /** The callback never claims bytes it was not shown. */
  ghost predicate WithinSlice(split: Split) {
    forall s :: split(s) <= |s|
  }

  /** A frame once recognised is recognised alike however much data follows. */
  ghost predicate PrefixStable(split: Split) {
    forall s, t {:trigger split(s + t)} :: split(s) > 0 ==> split(s + t) == split(s)
  }

  datatype Parsed = Parsed(frames: seq<seq<byte>>, rest: seq<byte>)

  /** One greedy parse: cut frames off the front until the callback finds none. */
  ghost function Parse(split: Split, s: seq<byte>): Parsed
    requires WithinSlice(split)
    decreases |s|
  {
    if split(s) <= 0 then Parsed([], s)
    else
      var p := Parse(split, s[split(s)..]);
      Parsed([s[..split(s)]] + p.frames, p.rest)
  }

  /** The handler run on every arriving chunk in turn, keeping the residue in between. */
  ghost function Feed(split: Split, rest: seq<byte>, chunks: seq<seq<byte>>): Parsed
    requires WithinSlice(split)
    decreases |chunks|
  {
    if chunks == [] then Parsed([], rest)
    else
      var p := Parse(split, rest + chunks[0]);
      var q := Feed(split, p.rest, chunks[1..]);
      Parsed(p.frames + q.frames, q.rest)
  }

  lemma ConcatCons(f: seq<byte>, frames: seq<seq<byte>>, rest: seq<byte>)
    ensures Concat([f] + frames) + rest == f + (Concat(frames) + rest)
  {
    assert ([f] + frames)[1..] == frames;
  }

  lemma Reassembled(s: seq<byte>, n: nat, frames: seq<seq<byte>>, rest: seq<byte>)
    requires n <= |s| && Concat(frames) + rest == s[n..]
    ensures Concat([s[..n]] + frames) + rest == s
  {
    ConcatCons(s[..n], frames, rest);
  }

  /** Parsing loses nothing and reorders nothing. */
  lemma {:induction false} ParseReassembles(split: Split, s: seq<byte>)
    requires WithinSlice(split)
    ensures Concat(Parse(split, s).frames) + Parse(split, s).rest == s
    decreases |s|
  {
    if split(s) > 0 {
      var more := s[split(s)..];
      ParseReassembles(split, more);
      Reassembled(s, split(s), Parse(split, more).frames, Parse(split, more).rest);
    }
  }

  /** Parsing leaves no complete frame behind and makes no empty one. */
  lemma {:induction false} ParseIsComplete(split: Split, s: seq<byte>)
    requires WithinSlice(split)
    ensures var p := Parse(split, s);
            split(p.rest) <= 0 && forall i :: 0 <= i < |p.frames| ==> p.frames[i] != []
    decreases |s|
  {
    if split(s) > 0 {
      ParseIsComplete(split, s[split(s)..]);
    }
  }

  /** A stable parse can be resumed from its residue. */
  lemma {:induction false} ParseAppend(split: Split, s: seq<byte>, t: seq<byte>)
    requires WithinSlice(split) && PrefixStable(split)
    ensures var p := Parse(split, s);
            var q := Parse(split, p.rest + t);
            Parse(split, s + t) == Parsed(p.frames + q.frames, q.rest)
    decreases |s|
  {
    var n := split(s);
    if n > 0 {
      assert split(s + t) == n;
      assert (s + t)[..n] == s[..n] && (s + t)[n..] == s[n..] + t;
      ParseAppend(split, s[n..], t);
      var p := Parse(split, s[n..]);
      var q := Parse(split, p.rest + t);
      assert [s[..n]] + (p.frames + q.frames) == ([s[..n]] + p.frames) + q.frames;
    } else {
      assert [] + Parse(split, s + t).frames == Parse(split, s + t).frames;
    }
  }

  /** Any partition of the stream into reads gives the frames and residue of one greedy parse. */
  lemma {:induction false} ChunkingInvariance(split: Split, rest: seq<byte>, chunks: seq<seq<byte>>)
    requires WithinSlice(split) && PrefixStable(split) && split(rest) <= 0
    ensures Feed(split, rest, chunks) == Parse(split, rest + Concat(chunks))
    decreases |chunks|
  {
    if chunks == [] {
      assert rest + Concat(chunks) == rest;
    } else {
      var s := rest + chunks[0];
      var more := Concat(chunks[1..]);
      var p := Parse(split, s);
      var q := Feed(split, p.rest, chunks[1..]);
      assert q == Parse(split, p.rest + more) by {
        ParseIsComplete(split, s);
        ChunkingInvariance(split, p.rest, chunks[1..]);
      }
      assert Parse(split, s + more) == Parsed(p.frames + q.frames, q.rest) by {
        ParseAppend(split, s, more);
      }
      assert rest + Concat(chunks) == s + more;
    }
  }

  /** Chunking never matters exactly for the prefix-stable callbacks. */
  lemma ChunkingInvariantIffPrefixStable(split: Split)
    requires WithinSlice(split)
    ensures PrefixStable(split) <==>
            forall chunks :: Feed(split, [], chunks) == Parse(split, Concat(chunks))
  {
    if PrefixStable(split) {
      forall chunks
        ensures Feed(split, [], chunks) == Parse(split, Concat(chunks))
      {
        assert split([]) <= 0;
        ChunkingInvariance(split, [], chunks);
        assert [] + Concat(chunks) == Concat(chunks);
      }
    } else {
      var s, t :| split(s) > 0 && split(s + t) != split(s);
      UnstableSplitSeesChunks(split, s, t);
    }
  }

  /** A callback that revises a frame when more data follows yields different frames for two chunks and for one. */
  lemma UnstableSplitSeesChunks(split: Split, s: seq<byte>, t: seq<byte>)
    requires WithinSlice(split)
    requires split(s) > 0 && split(s + t) != split(s)
    ensures Feed(split, [], [s, t]) != Parse(split, Concat([s, t]))
  {
    assert [s, t][1..] == [t] && [t][1..] == [] && [] + s == s;
    assert Concat([t]) == t + [] == t;
    assert Concat([s, t]) == s + t;
    var fed := Feed(split, [], [s, t]);
    assert fed.frames[0] == s[..split(s)];
    var whole := Parse(split, s + t);
    if split(s + t) > 0 {
      assert |whole.frames[0]| == split(s + t) != |fed.frames[0]|;
    }
  }

  /** Frames that are each recognised exactly at their own end come out as they went in. */
  lemma {:induction false} ParseConcat(split: Split, frames: seq<seq<byte>>, tail: seq<byte>)
    requires WithinSlice(split) && PrefixStable(split)
    requires forall i :: 0 <= i < |frames| ==> split(frames[i]) == |frames[i]| > 0
    requires split(tail) <= 0
    ensures Parse(split, Concat(frames) + tail) == Parsed(frames, tail)
    decreases |frames|
  {
    if frames == [] {
      assert Concat(frames) + tail == tail;
    } else {
      var f := frames[0];
      var more := Concat(frames[1..]) + tail;
      assert Concat(frames) + tail == f + more;
      assert split(f + more) == |f|;
      assert (f + more)[..|f|] == f && (f + more)[|f|..] == more;
      ParseConcat(split, frames[1..], tail);
      assert frames == [f] + frames[1..];
    }
  }

  /** If the frames come out as they went in, each was recognised at its own end. */
  lemma {:induction false} ParseConcatConverse(split: Split, frames: seq<seq<byte>>, i: nat)
    requires WithinSlice(split)
    requires Parse(split, Concat(frames)) == Parsed(frames, [])
    requires i < |frames|
    ensures split(Concat(frames[i..])) == |frames[i]| > 0
    decreases i
  {
    var n := split(Concat(frames));
    assert frames[0..] == frames;
    assert n > 0 && frames[0] == Concat(frames)[..n];
    if i > 0 {
      assert Concat(frames)[n..] == Concat(frames[1..]);
      assert ([frames[0]] + Parse(split, Concat(frames[1..])).frames)[1..] == frames[1..];
      ParseConcatConverse(split, frames[1..], i - 1);
      assert frames[1..][i - 1..] == frames[i..];
    }
  }

  /** Whatever part of a framed stream has arrived, its frames are the first ones sent. */
  lemma PrefixGivesFirstFrames(split: Split, frames: seq<seq<byte>>, arrived: seq<byte>)
    requires WithinSlice(split) && PrefixStable(split)
    requires forall i :: 0 <= i < |frames| ==> split(frames[i]) == |frames[i]| > 0
    requires arrived <= Concat(frames)
    ensures Parse(split, arrived).frames <= frames
    ensures arrived == Concat(frames) ==> Parse(split, arrived) == Parsed(frames, [])
  {
    var left := Concat(frames)[|arrived|..];
    assert arrived + left == Concat(frames) == Concat(frames) + [];
    ParseConcat(split, frames, []);
    ParseAppend(split, arrived, left);
  }
}
