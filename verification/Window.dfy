/** The sliding window: one circular buffer that is both the LZ77 history and the queue of undelivered bytes. */
module Window {
  import opened Bits
  import opened Deflate

  const WSIZE: nat := 32768

  /** Where the byte d back from the write position is. */
  function Slot(write: nat, d: nat): nat
    requires 1 <= d <= WSIZE && write <= WSIZE
  {
    if d <= write then write - d else write + WSIZE - d
  }

  predicate Agrees(win: seq<byte>, write: nat, hist: seq<byte>, d: nat)
    requires |win| == WSIZE && write <= WSIZE && 1 <= d <= WSIZE <= |hist|
  {
    win[Slot(write, d)] == hist[|hist| - d]
  }

  /** The window holds the last WSIZE bytes of hist, ending at `write`. */
  ghost predicate Mirrors(win: seq<byte>, write: nat, hist: seq<byte>) {
    && |win| == WSIZE && write <= WSIZE && |hist| >= WSIZE
    && forall d {:trigger Agrees(win, write, hist, d)} :: 1 <= d <= WSIZE ==> Agrees(win, write, hist, d)
  }

  lemma PutByte(win: seq<byte>, write: nat, hist: seq<byte>, b: byte)
    requires Mirrors(win, write, hist) && write < WSIZE
    ensures Mirrors(win[write := b], write + 1, hist + [b])
  {
    var win', write', hist' := win[write := b], write + 1, hist + [b];
    forall d | 1 <= d <= WSIZE ensures Agrees(win', write', hist', d) {
      if d > 1 { assert Agrees(win, write, hist, d - 1); }
    }
  }

  /** Several bytes at once. */
  lemma PutRun(win: seq<byte>, win': seq<byte>, write: nat, hist: seq<byte>, run: seq<byte>)
    requires Mirrors(win, write, hist) && write + |run| <= WSIZE
    requires win' == win[..write] + run + win[write + |run|..]
    ensures Mirrors(win', write + |run|, hist + run)
  {
    var n, write', hist' := |run|, write + |run|, hist + run;
    forall d | 1 <= d <= WSIZE ensures Agrees(win', write', hist', d) {
      if d > n { assert Agrees(win, write, hist, d - n); }
    }
  }

  lemma WrapWrite(win: seq<byte>, hist: seq<byte>)
    requires Mirrors(win, WSIZE, hist)
    ensures Mirrors(win, 0, hist)
  {
    forall d | 1 <= d <= WSIZE ensures Agrees(win, 0, hist, d) {
      assert Agrees(win, WSIZE, hist, d);
    }
  }

  /** How many bytes from read to write, going round the end. Equal positions mean none. */
  function Pending(read: nat, write: nat): nat
    requires read <= WSIZE
  {
    if read <= write then write - read else WSIZE - read + write
  }

  /** Those bytes. */
  function Region(win: seq<byte>, read: nat, write: nat): seq<byte>
    requires |win| == WSIZE && read <= WSIZE && write <= WSIZE
  {
    if read <= write then win[read..write] else win[read..] + win[..write]
  }

  /** The region between read and write is the end of the history. */
  lemma RegionIsRecent(win: seq<byte>, read: nat, write: nat, hist: seq<byte>)
    requires Mirrors(win, write, hist) && read < WSIZE
    ensures Region(win, read, write) == hist[|hist| - Pending(read, write)..]
  {
    var n := Pending(read, write);
    var s := Region(win, read, write);
    forall i | 0 <= i < n ensures s[i] == hist[|hist| - n + i] {
      assert Agrees(win, write, hist, n - i);
    }
  }

  /** A run of the window from read on, as far as it does not pass the end or the write position. */
  lemma RunIsRecent(win: seq<byte>, read: nat, write: nat, hist: seq<byte>, n: nat)
    requires Mirrors(win, write, hist) && read < WSIZE
    requires n <= (if read <= write then write - read else WSIZE - read)
    ensures win[read..read + n] == hist[|hist| - Pending(read, write)..|hist| - Pending(read, write) + n]
  {
    var p := Pending(read, write);
    var a, b := win[read..read + n], hist[|hist| - p..|hist| - p + n];
    forall i | 0 <= i < n ensures a[i] == b[i] {
      assert Agrees(win, write, hist, p - i);
    }
  }

  /** The slot a copy reads from: dist back, wherever that is. */
  lemma CopySource(win: seq<byte>, write: nat, hist: seq<byte>, dist: nat)
    requires Mirrors(win, write, hist) && 1 <= dist <= WSIZE
    ensures Slot(write, dist) < WSIZE && win[Slot(write, dist)] == Back(hist, dist)
  {
    assert Agrees(win, write, hist, dist);
  }

  lemma SlicesJoin(s: seq<byte>, i: nat, j: nat, k: nat)
    requires i <= j <= k <= |s|
    ensures s[i..j] + s[j..k] == s[i..k]
  {}
}
