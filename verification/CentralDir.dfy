/** unzlocal_SearchCentralDir: looks for the end-of-central-directory record of a zip file from the end backwards. */
module CentralDir {
  import opened Bits

  const CHUNK: nat := 0x400
  const MAXBACK: nat := 0xffff

  /** The signature of section 4.3.16 of the PKWARE APPNOTE. */
  predicate SignatureAt(s: seq<byte>, i: nat) {
    i + 4 <= |s| && s[i] == 0x50 && s[i + 1] == 0x4b && s[i + 2] == 0x05 && s[i + 3] == 0x06
  }

  /** No signature at the offsets from lo up to hi. */
  predicate Clear(s: seq<byte>, lo: nat, hi: nat) {
    forall i {:trigger SignatureAt(s, i)} :: lo <= i < hi ==> !SignatureAt(s, i)
  }

  /** The last signature in a buffer. */
  method ScanBuffer(buf: seq<byte>) returns (found: bool, at: nat)
    requires |buf| >= 3
    ensures if found then SignatureAt(buf, at) && Clear(buf, at + 1, |buf|) else Clear(buf, 0, |buf|)
  {
    var i: int := |buf| - 3;
    found, at := false, 0;
    while i > 0
      invariant 0 <= i <= |buf| - 3 && Clear(buf, i, |buf|)
    {
      i := i - 1;
      if buf[i] == 0x50 && buf[i + 1] == 0x4b && buf[i + 2] == 0x05 && buf[i + 3] == 0x06 {
        return true, i;
      }
    }
  }

  /** A buffer that overlaps what was searched before by four bytes misses no signature at the seam. */
  lemma Seam(file: seq<byte>, lo: nat, n: nat, searched: nat)
    requires lo + n <= |file| && n >= 4 && searched <= lo + n - 4 + 1
    requires Clear(file[lo..lo + n], 0, n) && Clear(file, searched, |file|)
    ensures Clear(file, lo, |file|)
  {
    forall i | lo <= i < |file| ensures !SignatureAt(file, i) {
      assert SignatureAt(file[lo..lo + n], i - lo) <==> i + 4 <= lo + n && SignatureAt(file, i);
    }
  }

  lemma SeamFound(file: seq<byte>, lo: nat, n: nat, searched: nat, at: nat)
    requires lo + n <= |file| && n >= 4 && searched <= lo + n - 4 + 1
    requires SignatureAt(file[lo..lo + n], at) && Clear(file[lo..lo + n], at + 1, n) && Clear(file, searched, |file|)
    ensures SignatureAt(file, lo + at) && Clear(file, lo + at + 1, |file|)
  {
    forall i | lo + at + 1 <= i < |file| ensures !SignatureAt(file, i) {
      assert SignatureAt(file[lo..lo + n], i - lo) <==> i + 4 <= lo + n && SignatureAt(file, i);
    }
  }

  /** The greatest positive offset in the last 65535 bytes at which there is a signature, 0 if there is none. */
  method SearchCentralDir(file: seq<byte>) returns (pos: nat)
    ensures pos > 0 ==> SignatureAt(file, pos) && pos + MAXBACK >= |file| && Clear(file, pos + 1, |file|)
    ensures pos == 0 ==> Clear(file, if |file| > MAXBACK then |file| - MAXBACK else 1, |file|)
  {
    var size := |file|;
    var maxBack := MAXBACK;
    if maxBack > size { maxBack := size; }
    pos := 0;
    var backRead := 4;
    ghost var searched: nat := if size > 3 then size - 3 else 1;
    while backRead < maxBack
      invariant 4 <= backRead && (backRead <= maxBack || size < 4) && pos == 0
      invariant searched == if backRead == 4 then (if size > 3 then size - 3 else 1)
              else if backRead == size then 1 else size - backRead
      invariant Clear(file, searched, size)
      decreases maxBack - backRead
    {
      if backRead + CHUNK > maxBack { backRead := maxBack; } else { backRead := backRead + CHUNK; }
      var readPos := size - backRead;
      var readSize := if CHUNK + 4 < size - readPos then CHUNK + 4 else size - readPos;
      var found, i := ScanBuffer(file[readPos..readPos + readSize]);
      if found {
        SeamFound(file, readPos, readSize, searched, i);
        pos := readPos + i;
        if pos != 0 { break; }
      } else {
        Seam(file, readPos, readSize, searched);
      }
      searched := if readPos == 0 then 1 else readPos;
    }
  }

  /** A record behind other data, followed by up to 65531 bytes without a 'P', is found where it stands; if it lies
      further back, or is all there is to the file, it is not. */
  method FindRecord(front: seq<byte>, rest: seq<byte>) returns (pos: nat)
    requires 0x50 !in rest
    ensures pos == if |front| > 0 && |rest| <= 65531 then |front| else 0
  {
    var file := front + [0x50, 0x4b, 0x05, 0x06] + rest;
    pos := SearchCentralDir(file);
    assert SignatureAt(file, |front|);
    forall i | |front| < i < |file| ensures !SignatureAt(file, i) {
      if i >= |front| + 4 { assert file[i] in rest; }
    }
  }
}
