/** The frames PipWriteAnonymous hands to the pipe: a 32-bit length, the data, and one zero byte. */
module Frames {
  import opened Bits
  import opened Wrappers
  import opened Md5

  /** The longest data a frame is written for: its whole length fits 32 bits. */
  const LIMIT: nat := 0xffff_ffff - 4 - 1

  function Frame(data: seq<byte>): seq<byte> { WordBytes(|data|) + data + [0] }

  /** What a reader of the pipe makes of the bytes: the first payload, and what follows its frame. */
  function Unframe(s: seq<byte>): Option<(seq<byte>, seq<byte>)> {
    if |s| < 4 then None
    else
      var n := Joined(s[0], s[1], s[2], s[3]);
      if |s| < n + 5 then None else Some((s[4..n + 4], s[n + 5..]))
  }

  /** All payloads of a stream of frames. */
  function UnframeAll(s: seq<byte>): seq<seq<byte>> {
    match Unframe(s)
    case None => []
    case Some(p) => [p.0] + UnframeAll(p.1)
  }

  function Stream(l: seq<seq<byte>>): seq<byte> {
    if |l| == 0 then [] else Frame(l[0]) + Stream(l[1..])
  }

  lemma UnframeFrame(data: seq<byte>, rest: seq<byte>)
    requires |data| < WORD
    ensures Unframe(Frame(data) + rest) == Some((data, rest))
  {
    hide Joined;
    OneWord(|data|);
    var s := Frame(data) + rest;
    assert s[0] == WordBytes(|data|)[0] && s[1] == WordBytes(|data|)[1] && s[2] == WordBytes(|data|)[2]
        && s[3] == WordBytes(|data|)[3];
    assert s[4..|data| + 4] == data && s[|data| + 5..] == rest;
  }

  /** The frames of a stream of payloads, written one after the other, read back as those payloads. */
  lemma {:induction false} StreamRoundTrip(l: seq<seq<byte>>)
    requires forall i :: 0 <= i < |l| ==> |l[i]| < WORD
    ensures UnframeAll(Stream(l)) == l
  {
    if |l| > 0 {
      hide Unframe, Frame;
      StreamRoundTrip(l[1..]);
      UnframeFrame(l[0], Stream(l[1..]));
    } else {
      assert Unframe([]).None?;
    }
  }

  /** The number that four bytes stand for, low byte first. */
  function Number(b0: nat, b1: nat, b2: nat, b3: nat): nat {
    b0 + 0x100 * b1 + 0x1_0000 * b2 + 0x100_0000 * b3
  }

  /** The length stands in front, low byte first; it may be as long as the length of the whole frame fits 32 bits. */
  lemma FrameBytes(data: seq<byte>)
    ensures var f := Frame(data);
            && |f| == |data| + 5 && f[4..|f| - 1] == data && f[|f| - 1] == 0
            && (|f| <= 0xffff_ffff ==> Number(f[0], f[1], f[2], f[3]) == |data|)
    ensures |data| <= LIMIT <==> |Frame(data)| <= 0xffff_ffff
  {
    if |data| < WORD { FourBytes(|data|); }
  }

  lemma FourBytes(n: nat)
    requires n < 0x1_0000_0000
    ensures var b := WordBytes(n); Number(b[0], b[1], b[2], b[3]) == n
  {
    var q1 := n / 256;
    var q2 := q1 / 256;
    var q3 := q2 / 256;
    assert n == n % 256 + 256 * q1 && q1 == q1 % 256 + 256 * q2 && q2 == q2 % 256 + 256 * q3;
  }

  /** PipWriteAnonymous: the frame it writes, none if the length does not fit. */
  method WriteFrame(data: seq<byte>) returns (r: Option<seq<byte>>)
    ensures r == if |data| > LIMIT then None else Some(Frame(data))
  {
    if |data| > LIMIT { return None; }
    var sendlens := |data| + 4 + 1;
    var frame := new byte[sendlens](_ => 0);
    var size := WordBytes(|data|);
    forall i | 0 <= i < 4 { frame[i] := size[i]; }
    forall i | 0 <= i < |data| { frame[4 + i] := data[i]; }
    assert frame[..] == Frame(data);
    r := Some(frame[..]);
  }
}
