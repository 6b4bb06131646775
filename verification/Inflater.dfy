/** The suspendable decoder: inflate_flush, inflate_codes, inflate_fast and inflate_blocks over one state. */
module Inflater {
  import opened Bits
  import opened Wrappers
  import opened Canonical
  import opened HuftTable
  import opened HuftOpen
  import opened Deflate
  import opened BitBuffer
  import opened TableDecode
  import opened Window
  import opened FixedTables
  import opened BlockHeader
  import opened InflateTrees
  import opened Progress

  datatype BlockMode = TYPE | LENS | STORED | TABLE | BTREE | DTREE | CODES | DRY | DONE | BAD
  datatype CodesMode = START | LEN | LENEXT | DIST | DISTEXT | COPY | LIT | WASH | END | BADCODE

  /** Where a table is: in the decoder's own table space, or one of the two fixed tables. */
  datatype Space = Own | FixedL | FixedD
  datatype Ptr = Ptr(space: Space, off: nat)

  /** The contents of a new window. */
  function Blank(): (h: seq<byte>)
    ensures |h| == WSIZE
  {
    seq(WSIZE, _ => 0)
  }

  lemma BlankWindow()
    ensures Mirrors(Blank(), 0, Blank())
  {
    forall d | 1 <= d <= WSIZE ensures Agrees(Blank(), 0, Blank(), d) {}
  }

  function AtMost(x: nat, y: nat): nat {
    if x <= y then x else y
  }

  /** How much input and how much room for output a schedule of calls offers. */
  function Offered(schedule: seq<(nat, nat)>): nat {
    if schedule == [] then 0 else Offered(schedule[..|schedule| - 1]) + schedule[|schedule| - 1].0
  }

  function Rooms(schedule: seq<(nat, nat)>): nat {
    if schedule == [] then 0 else Rooms(schedule[..|schedule| - 1]) + schedule[|schedule| - 1].1
  }

  lemma OneMoreCall(schedule: seq<(nat, nat)>, i: nat)
    requires i < |schedule|
    ensures Offered(schedule[..i + 1]) == Offered(schedule[..i]) + schedule[i].0
    ensures Rooms(schedule[..i + 1]) == Rooms(schedule[..i]) + schedule[i].1
  {
    assert schedule[..i + 1][..i] == schedule[..i];
  }

  class Inflater {
    // z_stream: the compressed input as one sequence with the part made available so far,
    // everything written to the output so far, and the room left there
    const input: seq<byte>
    var nextIn: nat
    var availIn: nat
    var output: seq<byte>
    var availOut: nat

    // inflate_blocks_state
    var mode: BlockMode
    var last: bool
    var bitb: nat
    var bitk: nat
    const window: array<byte>
    var read: nat
    var write: nat
    const hufts: array<Huft>
    var left: nat          // STORED: bytes left to copy
    var table: nat         // BTREE, DTREE: the 14-bit table lengths
    var index: nat
    var blens: array<nat>
    var held: bool         // blens is allocated
    var bb: nat
    var tb: nat

    // inflate_codes_state
    var cmode: CodesMode
    var len: nat
    var need: nat
    var tree: Ptr
    var lit: nat
    var get: nat
    var dist: nat
    var lbits: nat
    var dbits: nat
    var ltree: Ptr
    var dtree: Ptr

    // everything the window has held, the codes of the current block, the bits a table walk may still take,
    // and where the current symbol started
    ghost var hist: seq<byte>
    ghost var code: Code
    ghost var budget: nat
    ghost var pos0: nat
    ghost var hist0: seq<byte>
    ghost var cl: seq<nat> // DTREE: the lengths of the bit-length code

    // ----- input bits -----

    predicate BitsOK()
      reads `bitb, `bitk, `nextIn, `availIn
    {
      bitk <= 8 * nextIn && Holds(input, bitb, bitk, nextIn) && nextIn + availIn <= |input|
    }

    /** The bit position of the first unconsumed bit. */
    function Pos(): int
      reads `nextIn, `bitk
    {
      8 * nextIn - bitk
    }

    lemma PosNonneg()
      requires BitsOK()
      ensures Pos() >= 0
    {
      hide Holds;
    }

    function BitLimit(): int
      reads `nextIn, `availIn
    {
      8 * (nextIn + availIn)
    }

    /** Takes the next byte into the buffer, above the bits already there. */
    method TakeByte()
      requires BitsOK() && availIn > 0 && bitk <= 24
      modifies `bitb, `bitk, `nextIn, `availIn
      ensures BitsOK() && Pos() == old(Pos()) && BitLimit() == old(BitLimit())
      ensures bitk == old(bitk) + 8 && availIn == old(availIn) - 1
    {
      BitBuffer.TakeByte(input, bitb, bitk, nextIn);
      bitb := Or(bitb, Low(Shl(input[nextIn], bitk), 32));
      nextIn, availIn := nextIn + 1, availIn - 1;
      bitk := bitk + 8;
    }

    static lemma WholeBytes(n: nat)
      ensures 8 * n % 8 == 0
    {}

    /** NEEDBITS(j), without the LEAVE: false when the available input ran out. */
    method NeedBits(j: nat, r: Ret) returns (ok: bool, r': Ret)
      requires BitsOK() && (j <= 25 || (j == 32 && bitk % 8 == 0))
      modifies `bitb, `bitk, `nextIn, `availIn
      ensures BitsOK() && Pos() == old(Pos()) && BitLimit() == old(BitLimit())
      ensures ok ==> j <= bitk && (bitk == old(bitk) || bitk < j + 8) && (bitk - old(bitk)) % 8 == 0
      ensures !ok ==> availIn == 0 && old(bitk) <= bitk < j && (bitk - old(bitk)) % 8 == 0
      ensures r' == r || r' == Ok
    {
      hide Holds;
      r' := r;
      ghost var taken := 0;
      while bitk < j
        invariant BitsOK() && Pos() == old(Pos()) && BitLimit() == old(BitLimit())
        invariant bitk == old(bitk) + 8 * taken && (taken == 0 || bitk < j + 8)
        invariant r' == r || r' == Ok
        decreases availIn
      {
        if availIn == 0 {
          WholeBytes(taken);
          return false, r';
        }
        WholeBytes(taken);
        r' := Ok;
        TakeByte();
        taken := taken + 1;
      }
      WholeBytes(taken);
      ok := true;
    }

    /** DUMPBITS(j) */
    method DumpBits(j: nat)
      requires BitsOK() && j <= bitk
      modifies `bitb, `bitk
      ensures BitsOK() && Pos() == old(Pos()) + j && bitk == old(bitk) - j && BitLimit() == old(BitLimit())
    {
      BitBuffer.DumpBits(input, bitb, bitk, nextIn, j);
      bitb := Shr(bitb, j);
      bitk := bitk - j;
    }

    // ----- the window -----

    predicate WindowShape()
      reads `read, `write
    {
      window.Length == WSIZE && read < WSIZE && write <= WSIZE
    }

    /** The window mirrors the end of the history; what lies between read and write has not been delivered;
        everything before that has. */
    ghost predicate WindowOK()
      reads `read, `write, `output, `hist, window
    {
      && WindowShape()
      && Mirrors(window[..], write, hist)
      && Pending(read, write) + WSIZE <= |hist|
      && output == hist[WSIZE..|hist| - Pending(read, write)]
    }

    /** WAVAIL: how many bytes can be written at the write position. */
    function Room(): nat
      requires WindowShape()
      reads `read, `write
    {
      if write < read then read - write - 1 else WSIZE - write
    }

    /** One piece of inflate_flush: copies the run that starts at the read position, as far as there is room. */
    method Deliver(r: Ret) returns (r': Ret)
      requires WindowOK()
      modifies `read, `output, `availOut
      ensures read <= WSIZE && old(read) <= read && (old(read) <= write ==> read <= write)
      ensures Pending(read, write) == old(Pending(read, write)) - (read - old(read))
      ensures output == old(output) + window[old(read)..read] == hist[WSIZE..|hist| - Pending(read, write)]
      ensures read - old(read) == old(availOut) - availOut && Space() == old(Space())
      ensures availOut == 0 || read == (if old(read) <= write then write else WSIZE)
      ensures r' == r || (r == BufError && r' == Ok)
    {
      hide Mirrors;
      var n := (if read <= write then write else WSIZE) - read;
      if n > availOut { n := availOut; }
      r' := if n != 0 && r == BufError then Ok else r;
      availOut := availOut - n;
      RunIsRecent(window[..], read, write, hist, n);
      ghost var a := |hist| - Pending(read, write);
      SlicesJoin(hist, WSIZE, a, a + n);
      output := output + window[read..read + n];
      read := read + n;
    }

    /** inflate_flush: delivers as much of the pending region as there is room for, in at most two pieces. */
    method Flush(r: Ret) returns (r': Ret)
      requires WindowOK()
      modifies `read, `write, `output, `availOut
      ensures WindowOK()
      ensures old(output) <= output && Space() == old(Space()) && |output| - |old(output)| == old(availOut) - availOut
      ensures Pending(read, write) == old(Pending(read, write)) - (|output| - |old(output)|)
      ensures availOut == 0 || read == write
      ensures write == old(write) || (old(write) == WSIZE && write == 0)
      ensures r' == r || (r == BufError && r' == Ok)
      ensures read == write ==> write < WSIZE
    {
      r' := Deliver(r);
      if read == WSIZE {
        read := 0;
        if write == WSIZE {
          WrapWrite(window[..], hist);
          write := 0;
        }
        r' := Deliver(r');
      }
    }

    /** WRAP */
    method Wrap()
      requires WindowOK()
      modifies `write
      ensures WindowOK()
      ensures write == if old(write) == WSIZE && read != 0 then 0 else old(write)
    {
      if write == WSIZE && read != 0 {
        WrapWrite(window[..], hist);
        write := 0;
      }
    }

    /** NEEDOUT, without the LEAVE: false when there is neither room in the window nor in the output. */
    method NeedOut(r: Ret) returns (ok: bool, r': Ret)
      requires WindowOK()
      modifies `read, `write, `output, `availOut
      ensures WindowOK() && old(output) <= output && Space() == old(Space())
      ensures write == old(write) || (old(write) == WSIZE && write == 0)
      ensures ok ==> Room() > 0 && write < WSIZE
      ensures !ok ==> Blocked()
      ensures r' == r || r' == Ok
    {
      r' := r;
      if Room() == 0 {
        Wrap();
        if Room() == 0 {
          r' := Flush(r');
          Wrap();
          if Room() == 0 { return false, r'; }
        }
      }
      ok, r' := true, Ok;
    }

    /** OUTBYTE */
    method OutByte(b: byte)
      requires WindowOK() && Room() > 0
      modifies window, `write, `hist
      ensures WindowOK() && write == old(write) + 1 && hist == old(hist) + [b]
      ensures Room() == old(Room()) - 1
    {
      PutByte(window[..], write, hist, b);
      ghost var win := window[..];
      window[write] := b;
      assert window[..] == win[write := b];
      write := write + 1;
      hist := hist + [b];
    }

    /** The room in the output and the bytes already there. */
    function Space(): nat
      reads `output, `availOut
    {
      |output| + availOut
    }

    /** There is something to deliver, but no room for it. */
    predicate Blocked()
      reads `read, `write, `availOut
    {
      availOut == 0 && read != write
    }

    // ----- inflate_codes -----

    /** The entries a table pointer points into. */
    function Entries(space: Space): seq<Huft>
      reads hufts
    {
      match space
      case Own => hufts[..]
      case FixedL => FixedTl()
      case FixedD => FixedTd()
    }

    /** The tables of the current block decode its codes. */
    ghost predicate TreesOK()
      reads `code, `last, `ltree, `lbits, `dtree, `dbits, hufts
    {
      && code.last == last
      && LitTable(Entries(ltree.space), ltree.off, lbits, code.lit)
      && (if NoCodes(code.dist) then |code.lit| <= 257
          else DistTable(Entries(dtree.space), dtree.off, dbits, code.dist))
    }

    /** A table walk under way: the leaf ahead is a good one, and no lookup takes more than 9 bits. */
    ghost predicate Walking(root: nat, longest: nat)
      reads `need, `budget
    {
      need <= 9 && if budget == BMAX then need == root && (need >= 6 || longest <= need) else budget <= 9
    }

    ghost predicate CodesModeOK()
      requires Pos() >= 0
      reads `nextIn, `bitk, `cmode, `len, `need, `tree, `lit, `get, `dist, `lbits, `dbits, `ltree, `dtree, `code,
        `budget, hufts
    {
      match cmode
      case LEN =>
        Walking(lbits, Longest(code.lit))
            && WalkGoodLit(Entries(tree.space), tree.off, need, budget, input, Pos(), code)
        && (budget == BMAX ==> tree == ltree)
      case LENEXT => get <= 5 && 3 <= len && len + Pow2(get) <= 259 && !NoCodes(code.dist)
      case DIST =>
        3 <= len <= 258 && !NoCodes(code.dist)
        && Walking(dbits, Longest(code.dist)) && WalkGoodDist(Entries(tree.space), tree.off, need, budget, input, Pos())
        && (budget == BMAX ==> tree == dtree)
      case DISTEXT => 3 <= len <= 258 && get <= 13 && 1 <= dist && dist + Pow2(get) <= 32769
      case COPY => len <= 258 && 1 <= dist <= WSIZE
      case LIT => lit < 256
      case END => bitk <= 7
      case _ => true
    }

    /** What the symbol under way will have done when it is complete. */
    ghost function SymbolMeaning(): Step
      requires Pos() >= 0
      reads `nextIn, `bitk, `cmode, `len, `need, `tree, `lit, `get, `dist, `code, `budget, `hist, hufts
    {
      match cmode
      case LEN => LitStep(input, code, NextLeaf(Entries(tree.space), tree.off, need, budget, input, Pos()), hist)
      case LENEXT => LengthExtra(input, code, len, get, Pos(), hist)
      case DIST => DistStep(input, len, NextLeaf(Entries(tree.space), tree.off, need, budget, input, Pos()), hist)
      case DISTEXT => DistanceExtra(input, len, dist, get, Pos(), hist)
      case COPY => More(Pos(), Copied(hist, len, dist))
      case LIT => More(Pos(), hist + [lit % 256])
      case START => More(Pos(), hist)
      case WASH => Ends(Pos())
      case END => Ends(Pos())
      case BADCODE => Invalid
    }

    /** The symbol under way is the one of the stream at pos0, and has produced no output unless it is being copied. */
    ghost predicate TokenOK()
      requires Pos() >= 0
      reads `nextIn, `bitk, `cmode, `len, `need, `tree, `lit, `get, `dist, `code, `budget, `hist, `pos0, `hist0, hufts
    {
      cmode in {LEN, LENEXT, DIST, DISTEXT, COPY, LIT} ==>
        SymbolMeaning() == Token(input, code, pos0, hist0) && (cmode != COPY ==> hist == hist0)
    }

    ghost predicate CodesOK()
      reads this, window, hufts
    {
      BitsOK() && WindowOK() && bitk <= 15 && TreesOK() && CodesModeOK() && TokenOK()
    }

    /** What decoding the rest of the stream from the current state of inflate_codes arrives at. */
    ghost function CodesMeaning(): Outcome
      requires Pos() >= 0
      reads `nextIn, `bitk, `cmode, `code, `hist, `pos0, `hist0
    {
      match cmode
      case START => Codes(input, code, Pos(), hist)
      case WASH => EndOfBlock(input, code.last, Pos(), hist)
      case END => EndOfBlock(input, code.last, Pos(), hist)
      case BADCODE => Corrupt(hist)
      case _ => Codes(input, code, pos0, hist0)
    }

    /** The return code carried between cases: the fast loop's verdict stays in it until its case is reached. */
    predicate RetOK(r: Ret)
      reads `cmode
    {
      r in {Ok, BufError} || (r == StreamEnd && cmode in {WASH, END}) || (r == DataError && cmode == BADCODE)
    }

    /** The input has run out in the middle of a symbol: fewer bits are left than the lookup or the extra bits take. */
    predicate CodesStalled()
      reads `cmode, `bitk, `get, `need, `availIn
    {
      && availIn == 0
      && match cmode
         case LEN => bitk < need
         case DIST => bitk < need
         case LENEXT => bitk < get
         case DISTEXT => bitk < get
         case _ => false
    }

    function CodesRank(): nat
      reads `cmode
    {
      match cmode
      case LENEXT => 7
      case DISTEXT => 6
      case COPY => 5
      case LIT => 5
      case START => 4
      case LEN => 3
      case DIST => 3
      case WASH => 2
      case END => 1
      case BADCODE => 0
    }

    method EnterLen()
      requires Pos() >= 0 && TreesOK()
      modifies `cmode, `need, `tree, `budget
      ensures CodesModeOK() && cmode == LEN
      ensures SymbolMeaning() == Token(input, code, Pos(), hist)
    {
      hide Token, NextLeaf, Decodes, Rest, Walk, Longest, LitStep;
      LitTables(Entries(ltree.space), ltree.off, lbits, input, code, Pos(), hist);
      LitTablesGood(Entries(ltree.space), ltree.off, lbits, code, input, Pos());
      need := lbits;
      tree := ltree;
      budget := BMAX;
      cmode := LEN;
    }

    method EnterDist()
      requires Pos() >= 0 && TreesOK() && !NoCodes(code.dist) && 3 <= len <= 258
      modifies `cmode, `need, `tree, `budget
      ensures CodesModeOK() && cmode == DIST
      ensures SymbolMeaning() == Distance(input, code, len, Pos(), hist)
    {
      hide Distance, NextLeaf, Decodes, Rest, Walk, Longest, DistStep;
      DistTables(Entries(dtree.space), dtree.off, dbits, input, code, len, Pos(), hist);
      DistTablesGood(Entries(dtree.space), dtree.off, dbits, code.dist, input, Pos());
      need := dbits;
      tree := dtree;
      budget := BMAX;
      cmode := DIST;
    }

    /** START, after the fast loop: set up for LEN. */
    method StepStart()
      requires CodesOK() && cmode == START
      modifies `cmode, `need, `tree, `budget, `pos0, `hist0
      ensures CodesOK() && cmode == LEN && CodesMeaning() == old(CodesMeaning())
      ensures pos0 == Pos() && hist0 == hist
    {
      hide Codes, Token, Decodes, Mirrors, Holds, SymbolMeaning, CodesModeOK, TreesOK, WindowOK, EndOfBlock;
      EnterLen();
      pos0, hist0 := Pos(), hist;
    }

    /** One table lookup: the entry for the next bits, which are then dumped. False when the input ran out. */
    method LookUp(ghost root: Ptr, ghost tr: Tree, r: Ret) returns (ok: bool, r': Ret, c: nat, en: Huft)
      requires BitsOK() && bitk <= 15 && tr.Valid()
      requires Decodes(Entries(root.space), root.off, if budget == BMAX then need else BMAX, tr) || budget != BMAX
      requires Walking(need, Longest(tr.lens)) && (budget == BMAX ==> tree == root)
      requires Walk(Entries(tree.space), tree.off, need, Rest(input, Pos()), budget).Leaf?
      modifies `bitb, `bitk, `nextIn, `availIn
      ensures BitsOK() && bitk <= 15 && BitLimit() == old(BitLimit())
      ensures !ok ==> availIn == 0 && bitk < need && Pos() == old(Pos())
      ensures r' == r || r' == Ok
      ensures ok ==> Pos() > old(Pos())
      ensures ok && !IsLink(en) ==>
                && NextLeaf(Entries(tree.space), tree.off, need, budget, input, old(Pos())) == Entry(en, Pos())
                && Walk(Entries(tree.space), tree.off, need, Rest(input, old(Pos())), budget).entry == en
      ensures ok && IsLink(en) ==>
                && en.exop <= 9 && need <= budget && budget - need <= 9
                && NextLeaf(Entries(tree.space), tree.off, need, budget, input, old(Pos()))
                   == NextLeaf(Entries(tree.space), c + en.base, en.exop, budget - need, input, Pos())
                && Walk(Entries(tree.space), c + en.base, en.exop, Rest(input, Pos()), budget - need).Leaf?
                && Walk(Entries(tree.space), c + en.base, en.exop, Rest(input, Pos()), budget - need).entry
                   == Walk(Entries(tree.space), tree.off, need, Rest(input, old(Pos())), budget).entry
    {
      hide Decodes, Holds, Low, Longest, Rest, NextLeaf, Walk;
      ok, r' := NeedBits(need, r);
      c, en := 0, Huft(0, 0, 0);
      if !ok { return; }
      BufferBits(input, bitb, bitk, nextIn, need);
      LinkStep(Entries(tree.space), tree.off, need, budget, input, Pos());
      if budget == BMAX && Longest(tr.lens) <= need {
        NoLinks(Entries(tree.space), tree.off, need, tr, Rest(input, Pos()));
      }
      c := tree.off + Low(bitb, need);
      en := Entries(tree.space)[c];
      DumpBits(en.bits);
    }

    /** LEN, once a leaf is reached. */
    method TakeLitLeaf(en: Huft, r: Ret) returns (leave: bool, r': Ret)
      requires Pos() >= 0 && !IsLink(en) && GoodLit(en, code)
      modifies `cmode, `lit, `len, `get
      ensures CodesModeOK() && cmode in {LIT, LENEXT, WASH, BADCODE}
      ensures SymbolMeaning() == LitEntry(input, code, en, Pos(), hist)
      ensures cmode == WASH ==> SymbolMeaning() == Ends(Pos())
      ensures (leave <==> cmode == BADCODE) && (leave ==> SymbolMeaning() == Invalid)
      ensures r' == if leave then DataError else r
    {
      hide Decodes, Rest, Walk, Longest, Pow2, LengthExtra;
      leave, r' := false, r;
      if en.exop == 0 {
        lit := en.base;
        cmode := LIT;
      } else if Bit16(en.exop) {
        get := en.exop % 16;
        len := en.base;
        cmode := LENEXT;
      } else if Bit32(en.exop) {
        cmode := WASH;
      } else {
        cmode := BADCODE;
        leave, r' := true, DataError;
      }
    }

    /** LEN or DIST, at a link. */
    method FollowLink(c: nat, en: Huft)
      requires Pos() >= 0 && cmode in {LEN, DIST} && en.exop <= 9 && need <= budget && budget - need <= 9
      requires if cmode == LEN
               then WalkGoodLit(Entries(tree.space), c + en.base, en.exop, budget - need, input, Pos(), code)
               else 3 <= len <= 258 && !NoCodes(code.dist)
                    && WalkGoodDist(Entries(tree.space), c + en.base, en.exop, budget - need, input, Pos())
      modifies `need, `tree, `budget
      ensures CodesModeOK()
      ensures var rest := old(NextLeaf(Entries(tree.space), c + en.base, en.exop, budget - need, input, Pos()));
              SymbolMeaning()
              == if cmode == LEN then LitStep(input, code, rest, hist) else DistStep(input, len, rest, hist)
    {
      hide WalkGoodLit, WalkGoodDist, NextLeaf, LitStep, DistStep, NoCodes;
      budget := budget - need;
      need := en.exop;
      tree := Ptr(tree.space, c + en.base);
    }

    /** The lookup of LEN: a good leaf for the symbol, or a link on the way to one. */
    method LookUpLit(r: Ret) returns (ok: bool, r': Ret, c: nat, en: Huft)
      requires CodesOK() && cmode == LEN
      modifies `bitb, `bitk, `nextIn, `availIn
      ensures BitsOK() && bitk <= 15 && BitLimit() == old(BitLimit())
      ensures if ok then Pos() > old(Pos())
              else availIn == 0 && bitk < need && Pos() == old(Pos()) && CodesModeOK() && TokenOK()
      ensures r' == r || r' == Ok
      ensures ok && !IsLink(en) ==> GoodLit(en, code) && old(SymbolMeaning()) == LitEntry(input, code, en, Pos(), hist)
      ensures ok && IsLink(en) ==>
                && en.exop <= 9 && need <= budget && budget - need <= 9
                && WalkGoodLit(Entries(tree.space), c + en.base, en.exop, budget - need, input, Pos(), code)
                && old(SymbolMeaning()) == LitStep(input, code,
                     NextLeaf(Entries(tree.space), c + en.base, en.exop, budget - need, input, Pos()), hist)
    {
      hide Token, NextLeaf, Decodes, Mirrors, Holds, Low, Rest, Walk, Longest, Pow2, GoodLit, LitEntry, WindowOK;
      ok, r', c, en := LookUp(ltree, LitTree(code.lit), r);
    }

    method StepLen(r: Ret) returns (leave: bool, r': Ret)
      requires CodesOK() && cmode == LEN
      modifies `bitb, `bitk, `nextIn, `availIn, `cmode, `need, `tree, `lit, `len, `get, `budget
      ensures CodesOK() && CodesMeaning() == old(CodesMeaning()) && BitLimit() == old(BitLimit())
      ensures Pos() > old(Pos()) || (leave && Pos() == old(Pos()))
      ensures leave ==> CodesStalled() || (r' == DataError && cmode == BADCODE)
      ensures r' == r || r' == Ok || (leave && r' == DataError && cmode == BADCODE)
    {
      hide Token, NextLeaf, WalkGoodLit, Holds, Rest, Longest, Pow2, LengthExtra, EndOfBlock, LitEntry, TreesOK,
        WindowOK, Bit16, Bit64, IsLink, CodesModeOK, SymbolMeaning, LitStep;
      var ok, c, en;
      ok, r', c, en := LookUpLit(r);
      LinkBits(en);
      if !ok { return true, r'; }
      if en.exop != 0 && !Bit16(en.exop) && !Bit64(en.exop) {
        leave := false;
        FollowLink(c, en);
      } else {
        leave, r' := TakeLitLeaf(en, r');
      }
    }

    /** NEEDBITS(j) and the value of those bits, which stay in the buffer. */
    method PeekBits(j: nat, r: Ret) returns (ok: bool, r': Ret, v: nat)
      requires BitsOK() && bitk <= 15 && j <= 14
      modifies `bitb, `bitk, `nextIn, `availIn
      ensures BitsOK() && Pos() == old(Pos()) && BitLimit() == old(BitLimit())
      ensures if ok then j <= bitk && bitk <= j + 15 && v == Peek(input, Pos(), j) < Pow2(j)
              else availIn == 0 && bitk < j
      ensures r' == r || r' == Ok
    {
      hide Holds, Low, Rest, Pow2;
      ok, r' := NeedBits(j, r);
      v := 0;
      if !ok { return; }
      BufferBits(input, bitb, bitk, nextIn, j);
      LowBound(Rest(input, Pos()), j);
      v := Low(bitb, j);
    }

    /** Takes j bits from the buffer. False when the input ran out. */
    method TakeBits(j: nat, r: Ret) returns (ok: bool, r': Ret, v: nat)
      requires BitsOK() && bitk <= 15 && j <= 13
      modifies `bitb, `bitk, `nextIn, `availIn
      ensures BitsOK() && bitk <= 15 && BitLimit() == old(BitLimit())
      ensures !ok ==> availIn == 0 && bitk < j && Pos() == old(Pos())
      ensures ok ==>
                Pos() == old(Pos()) + j && v == Peek(input, old(Pos()), j) < Pow2(j) && old(Pos()) + j <= 8 * |input|
      ensures r' == r || r' == Ok
    {
      hide Holds, Peek, Pow2;
      ok, r', v := PeekBits(j, r);
      if ok { DumpBits(j); }
    }

    /** LENEXT: what the invariant amounts to. */
    lemma AtLenExt()
      requires Pos() >= 0 && cmode == LENEXT
      ensures CodesModeOK() && TokenOK() <==>
                && get <= 5 && 3 <= len && len + Pow2(get) <= 259 && !NoCodes(code.dist) && hist == hist0
                && LengthExtra(input, code, len, get, Pos(), hist) == Token(input, code, pos0, hist0)
      ensures CodesMeaning() == Codes(input, code, pos0, hist0)
    {
      hide Token, LengthExtra, Pow2, NoCodes, Codes;
    }

    lemma LengthTaken(base: nat, bits: nat, pos: nat)
      requires pos + bits <= 8 * |input|
      ensures LengthExtra(input, code, base, bits, pos, hist)
           == Distance(input, code, base + Peek(input, pos, bits), pos + bits, hist)
    {
      hide Distance, Peek;
    }

    /** The distance that belongs to the length. */
    method BeginDist()
      requires BitsOK() && WindowOK() && bitk <= 15 && TreesOK() && !NoCodes(code.dist) && 3 <= len <= 258
      requires hist == hist0 && Distance(input, code, len, Pos(), hist) == Token(input, code, pos0, hist0)
      modifies `cmode, `need, `tree, `budget
      ensures CodesOK() && cmode == DIST && CodesMeaning() == Codes(input, code, pos0, hist0)
    {
      hide Codes, Token, Holds, Mirrors, Distance, TreesOK, CodesModeOK, WindowOK;
      EnterDist();
    }

    method StepLenExt(r: Ret) returns (leave: bool, r': Ret)
      requires CodesOK() && cmode == LENEXT
      modifies `bitb, `bitk, `nextIn, `availIn, `cmode, `need, `tree, `len, `budget
      ensures CodesOK() && CodesMeaning() == old(CodesMeaning()) && BitLimit() == old(BitLimit())
      ensures Pos() >= old(Pos()) && (leave ==> CodesStalled()) && (!leave ==> cmode == DIST)
      ensures r' == r || r' == Ok
    {
      hide Codes, Token, Holds, Mirrors, Distance, TreesOK, WindowOK, LengthExtra, Peek, CodesModeOK, TokenOK,
        CodesMeaning, Pow2, NoCodes;
      AtLenExt();
      var ok, v;
      ok, r', v := TakeBits(get, r);
      if !ok {
        AtLenExt();
        return true, r';
      }
      leave := false;
      LengthTaken(len, get, Pos() - get);
      len := len + v;
      BeginDist();
    }

    /** DIST, once a leaf is reached. */
    method TakeDistLeaf(en: Huft, r: Ret) returns (leave: bool, r': Ret)
      requires Pos() >= 0 && !IsLink(en) && GoodDist(en) && 3 <= len <= 258
      modifies `cmode, `get, `dist
      ensures CodesModeOK() && cmode in {DISTEXT, BADCODE}
      ensures SymbolMeaning() == DistEntry(input, len, en, Pos(), hist)
      ensures (leave <==> cmode == BADCODE) && (leave ==> SymbolMeaning() == Invalid)
      ensures r' == if leave then DataError else r
    {
      hide Decodes, Rest, Walk, Longest, Pow2, DistanceExtra;
      leave, r' := false, r;
      if Bit16(en.exop) {
        get := en.exop % 16;
        dist := en.base;
        cmode := DISTEXT;
      } else {
        cmode := BADCODE;
        leave, r' := true, DataError;
      }
    }

    /** The lookup of DIST. */
    method LookUpDist(r: Ret) returns (ok: bool, r': Ret, c: nat, en: Huft)
      requires CodesOK() && cmode == DIST
      modifies `bitb, `bitk, `nextIn, `availIn
      ensures BitsOK() && bitk <= 15 && BitLimit() == old(BitLimit())
      ensures if ok then Pos() > old(Pos())
              else availIn == 0 && bitk < need && Pos() == old(Pos()) && CodesModeOK() && TokenOK()
      ensures (r' == r || r' == Ok) && 3 <= len <= 258 && !NoCodes(code.dist)
      ensures ok && !IsLink(en) ==> GoodDist(en) && old(SymbolMeaning()) == DistEntry(input, len, en, Pos(), hist)
      ensures ok && IsLink(en) ==>
                && en.exop <= 9 && need <= budget && budget - need <= 9
                && WalkGoodDist(Entries(tree.space), c + en.base, en.exop, budget - need, input, Pos())
                && old(SymbolMeaning()) == DistStep(input, len,
                     NextLeaf(Entries(tree.space), c + en.base, en.exop, budget - need, input, Pos()), hist)
    {
      hide Token, NextLeaf, Decodes, Mirrors, Holds, Low, Rest, Walk, Longest, Pow2, GoodDist, DistEntry, WindowOK;
      ok, r', c, en := LookUp(dtree, DistTree(code.dist), r);
    }

    method StepDist(r: Ret) returns (leave: bool, r': Ret)
      requires CodesOK() && cmode == DIST
      modifies `bitb, `bitk, `nextIn, `availIn, `cmode, `need, `tree, `get, `dist, `budget
      ensures CodesOK() && CodesMeaning() == old(CodesMeaning()) && BitLimit() == old(BitLimit())
      ensures Pos() > old(Pos()) || (leave && Pos() == old(Pos()))
      ensures leave ==> CodesStalled() || (r' == DataError && cmode == BADCODE)
      ensures r' == r || r' == Ok || (leave && r' == DataError && cmode == BADCODE)
    {
      hide Token, NextLeaf, WalkGoodDist, Holds, Rest, Longest, Pow2, DistanceExtra, EndOfBlock, DistEntry, TreesOK,
        WindowOK, Bit16, Bit64, IsLink, CodesModeOK, SymbolMeaning, DistStep;
      var ok, c, en;
      ok, r', c, en := LookUpDist(r);
      LinkBits(en);
      if !ok { return true, r'; }
      if !Bit16(en.exop) && !Bit64(en.exop) {
        leave := false;
        FollowLink(c, en);
      } else {
        leave, r' := TakeDistLeaf(en, r');
      }
    }

    method StepDistExt(r: Ret) returns (leave: bool, r': Ret)
      requires CodesOK() && cmode == DISTEXT
      modifies `bitb, `bitk, `nextIn, `availIn, `cmode, `dist
      ensures CodesOK() && CodesMeaning() == old(CodesMeaning()) && BitLimit() == old(BitLimit())
      ensures Pos() >= old(Pos()) && (leave ==> CodesStalled()) && (!leave ==> cmode == COPY)
      ensures r' == r || r' == Ok
    {
      hide Codes, Token, Decodes, Mirrors, Holds, Low, Rest, Walk, Longest, Pow2, Copied, WindowOK, TreesOK,
        EndOfBlock, NextLeaf;
      var ok, v;
      ok, r', v := TakeBits(get, r);
      if !ok { return true, r'; }
      leave := false;
      dist := dist + v;
      cmode := COPY;
    }

    /** Copies one byte within the window and moves the source on. */
    method CopyByte(f: nat) returns (f': nat)
      requires WindowOK() && Room() > 0 && 1 <= dist <= WSIZE && f == Slot(write, dist)
      modifies window, `write, `hist
      ensures WindowOK() && hist == old(hist) + [Back(old(hist), dist)]
      ensures write == old(write) + 1 && f' == Slot(write, dist)
    {
      hide Mirrors;
      CopySource(window[..], write, hist, dist);
      OutByte(window[f]);
      f' := f + 1;
      if f' == WSIZE { f' := 0; }
    }

    /** COPY: byte by byte from the slot dist back, going round the end of the window. False when out of room. */
    method CopyLoop(r: Ret) returns (ok: bool, r': Ret)
      requires WindowOK() && 1 <= dist <= WSIZE
      modifies window, `read, `write, `output, `availOut, `hist, `len
      ensures WindowOK() && old(output) <= output && Space() == old(Space()) && len <= old(len)
      ensures Copied(hist, len, dist) == old(Copied(hist, len, dist))
      ensures if ok then len == 0 else Blocked()
      ensures r' == r || r' == Ok
    {
      hide Mirrors, Back, Blocked;
      r' := r;
      var f := if write < dist then WSIZE - (dist - write) else write - dist;
      while len > 0
        invariant WindowOK() && f == Slot(write, dist) && len <= old(len)
        invariant Copied(hist, len, dist) == old(Copied(hist, len, dist))
        invariant old(output) <= output && Space() == old(Space()) && (r' == r || r' == Ok)
        decreases len
      {
        ok, r' := NeedOut(r');
        if !ok { return; }
        f := CopyByte(f);
        len := len - 1;
      }
      ok := true;
    }

    lemma SymbolDone()
      requires Pos() >= 0 && Token(input, code, pos0, hist0) == More(Pos(), hist)
      ensures Codes(input, code, pos0, hist0) == Codes(input, code, Pos(), hist)
    {
      hide Token;
    }

    method StepCopy(r: Ret) returns (leave: bool, r': Ret)
      requires CodesOK() && cmode == COPY
      modifies window, `read, `write, `output, `availOut, `hist, `cmode, `len
      ensures CodesOK() && CodesMeaning() == old(CodesMeaning()) && old(output) <= output && Space() == old(Space())
      ensures (leave ==> Blocked()) && (!leave ==> cmode == START)
      ensures !leave ==> Token(input, code, pos0, hist0) == More(Pos(), hist)
      ensures r' == r || r' == Ok
    {
      hide Token, Decodes, Mirrors, Holds, Low, Rest, Walk, Longest, Pow2, EndOfBlock, Codes, TreesOK, WindowOK;
      var ok;
      ok, r' := CopyLoop(r);
      leave := !ok;
      if ok {
        cmode := START;
        SymbolDone();
      }
    }

    method StepLit(r: Ret) returns (leave: bool, r': Ret)
      requires CodesOK() && cmode == LIT
      modifies window, `read, `write, `output, `availOut, `hist, `cmode
      ensures CodesOK() && CodesMeaning() == old(CodesMeaning()) && old(output) <= output && Space() == old(Space())
      ensures (leave ==> Blocked()) && (!leave ==> cmode == START)
      ensures !leave ==> Token(input, code, pos0, hist0) == More(Pos(), hist)
      ensures r' == r || r' == Ok
    {
      hide Token, Decodes, Mirrors, Holds, Low, Rest, Walk, Longest, Pow2, EndOfBlock, TreesOK, WindowOK, Codes;
      var ok;
      ok, r' := NeedOut(r);
      if !ok { return true, r'; }
      OutByte(lit % 256);
      leave := false;
      cmode := START;
      SymbolDone();
    }

    /** WASH: gives back a byte read too much, and waits until everything is delivered. */
    method StepWash(r: Ret) returns (leave: bool, r': Ret)
      requires CodesOK() && cmode == WASH
      modifies `bitk, `nextIn, `availIn, `read, `write, `output, `availOut, `cmode
      ensures CodesOK() && CodesMeaning() == old(CodesMeaning()) && BitLimit() == old(BitLimit()) && Pos() == old(Pos())
      ensures old(output) <= output && Space() == old(Space()) && bitk <= 7
      ensures if leave then Blocked() && cmode == WASH else read == write && cmode == END
      ensures r' == r || r' == Ok
    {
      hide Codes, Token, Mirrors, Holds, Low, Rest, Walk, Longest, Pow2, EndOfBlock, TreesOK, Pending, Sub,
        WindowShape, WalkGoodLit, WalkGoodDist, Walking, NoCodes;
      if bitk > 7 {
        assert bitk < 16;
        GiveBack(input, bitb, bitk, nextIn, 1);
        bitk := bitk - 8;
        availIn := availIn + 1;
        nextIn := nextIn - 1;
      }
      r' := Flush(r);
      leave := read != write;
      if !leave { cmode := END; }
    }

    // ----- inflate_fast -----

    /** GRABBITS(j): takes bytes without checking that there are any. */
    method GrabBits(j: nat)
      requires BitsOK() && j <= 20 && j <= bitk + 8 * availIn
      modifies `bitb, `bitk, `nextIn, `availIn
      ensures BitsOK() && Pos() == old(Pos()) && BitLimit() == old(BitLimit())
      ensures j <= bitk && (bitk == old(bitk) || bitk < j + 8)
      ensures availIn <= old(availIn) && 8 * (old(availIn) - availIn) <= j + 7
    {
      while bitk < j
        invariant BitsOK() && Pos() == old(Pos()) && BitLimit() == old(BitLimit())
        invariant old(bitk) <= bitk && (bitk == old(bitk) || bitk < j + 8) && availIn <= old(availIn)
        decreases j - bitk
      {
        TakeByte();
      }
    }

    method DropBits(j: nat) returns (v: nat)
      requires BitsOK() && j <= bitk
      modifies `bitb, `bitk
      ensures BitsOK() && bitk == old(bitk) - j && v == Peek(input, old(Pos()), j) < Pow2(j)
      ensures old(Pos()) + j <= 8 * |input|
    {
      hide Holds, Low, Rest, Pow2;
      BufferBits(input, bitb, bitk, nextIn, j);
      LowBound(Rest(input, Pos()), j);
      v := Low(bitb, j);
      DumpBits(j);
    }

    /** The index of the entry that the next j bits select. */
    method EntryIndex(T: seq<Huft>, t: nat, j: nat, ghost bud: nat) returns (c: nat)
      requires BitsOK() && bud <= bitk && Walk(T, t, j, Rest(input, Pos()), bud).Leaf?
      ensures j <= bud && c == t + Peek(input, Pos(), j) < |T|
    {
      hide Holds, Low, Rest, NextLeaf, Walk;
      LinkStep(T, t, j, bud, input, Pos());
      BufferBits(input, bitb, bitk, nextIn, j);
      c := t + Low(bitb, j);
    }

    /** Walks the tables at root to a leaf, with enough bits in the buffer for any code. */
    method FastWalk(root: Ptr, need0: nat) returns (en: Huft)
      requires BitsOK() && bitk >= BMAX
      requires var r := Walk(Entries(root.space), root.off, need0, Rest(input, Pos()), BMAX);
               r.Leaf? && (r.entry.exop == 0 || Bit64(r.entry.exop))
      modifies `bitb, `bitk
      ensures BitsOK() && old(bitk) - BMAX <= bitk < old(bitk)
      ensures NextLeaf(Entries(root.space), root.off, need0, BMAX, input, old(Pos())) == Entry(en, Pos())
      ensures en == Walk(Entries(root.space), root.off, need0, Rest(input, old(Pos())), BMAX).entry
    {
      hide Holds, Low, Rest, NextLeaf, Walk;
      var T := Entries(root.space);
      var t: nat, j: nat := root.off, need0;
      ghost var bud: nat := BMAX;
      var c := EntryIndex(T, t, j, bud);
      while T[c].exop != 0 && !Bit16(T[c].exop) && !Bit64(T[c].exop)
        invariant BitsOK() && bitk - bud == old(bitk) - BMAX && bud <= BMAX
        invariant c == t + Peek(input, Pos(), j) < |T|
        invariant Walk(T, t, j, Rest(input, Pos()), bud).Leaf?
        invariant Walk(T, t, j, Rest(input, Pos()), bud).entry
                  == Walk(T, root.off, need0, Rest(input, old(Pos())), BMAX).entry
        invariant NextLeaf(T, t, j, bud, input, Pos()) == NextLeaf(T, root.off, need0, BMAX, input, old(Pos()))
        decreases bud
      {
        LinkStep(T, t, j, bud, input, Pos());
        DumpBits(T[c].bits);
        bud := bud - j;
        t, j := c + T[c].base, T[c].exop;
        c := EntryIndex(T, t, j, bud);
      }
      LinkStep(T, t, j, bud, input, Pos());
      en := T[c];
      DumpBits(en.bits);
    }

    /** Copies byte by byte, with no check for room or for the end of the window. */
    method CopyRun(n0: nat, f0: nat, d: nat) returns (f: nat)
      requires WindowOK() && 1 <= n0 <= Room() && 1 <= d <= WSIZE && f0 == Slot(write, d) && f0 + n0 <= WSIZE
      modifies window, `write, `hist
      ensures WindowOK() && hist == Copied(old(hist), n0, d) && f == f0 + n0
      ensures write == old(write) + n0 && Room() == old(Room()) - n0
      ensures f < WSIZE ==> f == Slot(write, d)
      ensures f == WSIZE ==> Slot(write, d) == 0
    {
      hide Mirrors;
      var n := n0;
      f := f0;
      while true
        invariant WindowOK() && 1 <= n <= n0 && f == f0 + (n0 - n) && f == Slot(write, d)
        invariant write == old(write) + (n0 - n) && Room() == old(Room()) - (n0 - n)
        invariant Copied(hist, n, d) == Copied(old(hist), n0, d)
        decreases n
      {
        CopySource(window[..], write, hist, d);
        OutByte(window[f]);
        f := f + 1;
        n := n - 1;
        if n == 0 { break; }
      }
    }

    /** The copy of inflate_fast: straight on from behind the write position, or from the end of the window and then
        round. */
    method FastCopy(c0: nat, d: nat)
      requires WindowOK() && 3 <= c0 <= Room() && 1 <= d <= WSIZE
      modifies window, `write, `hist
      ensures WindowOK() && hist == Copied(old(hist), c0, d) && Room() == old(Room()) - c0
    {
      hide Mirrors, Copied;
      var c, f := c0, 0;
      if write >= d {
        f := write - d;
        f := CopyRun(2, f, d);
        CopiedTwice(old(hist), 2, c0 - 2, d);
        c := c - 2;
      } else {
        var e := d - write;
        f := WSIZE - e;
        if c > e {
          c := c - e;
          f := CopyRun(e, f, d);
          CopiedTwice(old(hist), e, c0 - e, d);
          f := 0;
        }
      }
      f := CopyRun(c, f, d);
    }

    /** The entry for the next distance code. */
    method FastDistEntry(ghost c: nat) returns (en: Huft)
      requires BitsOK() && TreesOK() && !NoCodes(code.dist) && availIn >= 4
      modifies `bitb, `bitk, `nextIn, `availIn
      ensures BitsOK() && Pos() >= old(Pos()) && BitLimit() == old(BitLimit())
      ensures old(availIn) - 2 <= availIn <= old(availIn)
      ensures GoodDist(en) && DistEntry(input, c, en, Pos(), hist) == Distance(input, code, c, old(Pos()), hist)
    {
      hide Token, Decodes, Holds, Low, Rest, Walk, Longest, NextLeaf, NextSymbol, Distance, DistanceExtra, GoodDist,
        DistEntry, Pow2;
      GrabBits(15);
      DistTables(Entries(dtree.space), dtree.off, dbits, input, code, c, Pos(), hist);
      DistTablesGood(Entries(dtree.space), dtree.off, dbits, code.dist, input, Pos());
      DistWalkExop(Entries(dtree.space), dtree.off, dbits, input, Pos());
      en := FastWalk(dtree, dbits);
    }

    /** After a length: the distance and the copy. False for an invalid distance code. */
    method FastDistance(c: nat) returns (ok: bool)
      requires BitsOK() && WindowOK() && TreesOK() && !NoCodes(code.dist) && 3 <= c <= 258
      requires availIn >= 4 && Room() >= 258
      modifies `bitb, `bitk, `nextIn, `availIn, window, `write, `hist
      ensures BitsOK() && WindowOK() && Pos() >= old(Pos()) && BitLimit() == old(BitLimit()) && availIn <= old(availIn)
      ensures Distance(input, code, c, old(Pos()), old(hist)) == if ok then More(Pos(), hist) else Invalid
      ensures !ok ==> hist == old(hist)
    {
      hide Mirrors, Holds, Low, Rest, Pow2, Copied, Distance, TreesOK;
      var en := FastDistEntry(c);
      ok := Bit16(en.exop);
      if ok {
        GrabBits(en.exop % 16);
        var v := DropBits(en.exop % 16);
        FastCopy(c, en.base + v);
      }
    }

    /** From a length entry on: its extra bits, then the distance and the copy. */
    method FastMatch(en: Huft) returns (ok: bool)
      requires BitsOK() && WindowOK() && TreesOK() && GoodLit(en, code) && Bit16(en.exop)
      requires bitk >= 5 && availIn >= 4 && Room() >= 258
      modifies `bitb, `bitk, `nextIn, `availIn, window, `write, `hist
      ensures BitsOK() && WindowOK() && Pos() >= old(Pos()) && BitLimit() == old(BitLimit()) && availIn <= old(availIn)
      ensures LengthExtra(input, code, en.base, en.exop % 16, old(Pos()), old(hist))
              == if ok then More(Pos(), hist) else Invalid
      ensures !ok ==> hist == old(hist)
    {
      hide Decodes, Mirrors, Holds, Low, Rest, Longest, Pow2, Distance, TreesOK, WindowOK, NoCodes;
      var v := DropBits(en.exop % 16);
      ok := FastDistance(en.base + v);
    }

    /** The entry for the next literal/length code. */
    method FastLitEntry() returns (en: Huft)
      requires BitsOK() && TreesOK() && availIn >= 10
      modifies `bitb, `bitk, `nextIn, `availIn
      ensures BitsOK() && Pos() > old(Pos()) && BitLimit() == old(BitLimit())
      ensures bitk >= 5 && old(availIn) - 3 <= availIn <= old(availIn)
      ensures GoodLit(en, code) && LitEntry(input, code, en, Pos(), hist) == Token(input, code, old(Pos()), hist)
    {
      hide Token, Decodes, Holds, Low, Rest, Walk, Longest, Pow2, NextLeaf, LengthExtra, GoodLit, LitEntry;
      GrabBits(20);
      LitTables(Entries(ltree.space), ltree.off, lbits, input, code, Pos(), hist);
      LitTablesGood(Entries(ltree.space), ltree.off, lbits, code, input, Pos());
      LitWalkExop(Entries(ltree.space), ltree.off, lbits, code, input, Pos());
      en := FastWalk(ltree, lbits);
    }

    /** One round of the fast loop: Ok after a literal or a copy, otherwise the end of the block or an error. */
    method FastSymbol() returns (r: Ret)
      requires BitsOK() && WindowOK() && TreesOK() && Room() >= 258 && availIn >= 10
      modifies `bitb, `bitk, `nextIn, `availIn, window, `write, `hist
      ensures BitsOK() && WindowOK() && Pos() > old(Pos()) && BitLimit() == old(BitLimit()) && availIn <= old(availIn)
      ensures r in {Ok, StreamEnd, DataError}
      ensures Token(input, code, old(Pos()), old(hist)) ==
              match r case Ok => More(Pos(), hist) case StreamEnd => Ends(Pos()) case _ => Invalid
      ensures r != Ok ==> hist == old(hist)
    {
      hide Token, Mirrors, Holds, Pow2, LengthExtra, TreesOK;
      var en := FastLitEntry();
      if en.exop == 0 {
        OutByte(en.base % 256);
        r := Ok;
      } else if Bit16(en.exop) {
        var ok := FastMatch(en);
        r := if ok then Ok else DataError;
      } else {
        r := if Bit32(en.exop) then StreamEnd else DataError;
      }
    }

    /** UNGRAB: gives back whole unused bytes, but no more than were taken since availIn was n0. */
    method Ungrab(n0: nat)
      requires BitsOK() && availIn <= n0 && bitk <= 8 * (n0 - availIn) + 15 && n0 - availIn <= nextIn
      modifies `bitk, `nextIn, `availIn
      ensures BitsOK() && Pos() == old(Pos()) && BitLimit() == old(BitLimit()) && bitk <= 15
    {
      hide Holds;
      var c := n0 - availIn;
      c := if bitk / 8 < c then bitk / 8 else c;
      GiveBack(input, bitb, bitk, nextIn, c);
      availIn := availIn + c;
      nextIn := nextIn - c;
      bitk := bitk - 8 * c;
    }

    /** inflate_fast: symbols without any checks, while there is room for the longest copy and input for the longest
        symbol. The result says how the last symbol ended; the ones before it moved on. */
    method InflateFast() returns (r: Ret, ghost n: nat, ghost at: nat)
      requires BitsOK() && WindowOK() && TreesOK() && Room() >= 258 && availIn >= 10 && bitk <= 15
      modifies `bitb, `bitk, `nextIn, `availIn, window, `write, `hist
      ensures BitsOK() && WindowOK() && bitk <= 15 && Pos() > old(Pos()) && BitLimit() == old(BitLimit())
      ensures r in {Ok, StreamEnd, DataError}
      ensures Run(input, code, n, old(Pos()), old(hist)) == Some((at, hist))
      ensures match r
              case Ok => at == Pos()
              case StreamEnd => Token(input, code, at, hist) == Ends(Pos())
              case _ => Token(input, code, at, hist) == Invalid
    {
      hide Token, Mirrors, Holds, TreesOK, Run;
      var n0 := availIn;
      n, at := 0, Pos();
      RunNone(input, code, Pos(), hist);
      while true
        invariant BitsOK() && WindowOK() && Room() >= 258 && availIn >= 10
        invariant Pos() >= old(Pos()) && BitLimit() == old(BitLimit()) && availIn <= n0
        invariant at == Pos() && Run(input, code, n, old(Pos()), old(hist)) == Some((at, hist))
        decreases BitLimit() - Pos()
      {
        ghost var h := hist;
        r := FastSymbol();
        if r != Ok { break; }
        RunMore(input, code, n, old(Pos()), old(hist), at, h);
        n, at := n + 1, Pos();
        if !(Room() >= 258 && availIn >= 10) { break; }
      }
      Ungrab(n0);
    }

    /** What the symbol at which the fast loop ended makes of the block. */
    lemma LastSymbol(at: nat, p: nat)
      ensures Token(input, code, at, hist) == Ends(p) ==>
                Codes(input, code, at, hist) == EndOfBlock(input, code.last, p, hist)
      ensures Token(input, code, at, hist) == Invalid ==> Codes(input, code, at, hist) == Corrupt(hist)
    {
      hide Token, EndOfBlock;
    }

    /** START: the fast loop if there is room and input for it, then set up for LEN. */
    method FastStart(r: Ret) returns (r': Ret)
      requires CodesOK() && cmode == START
      modifies `bitb, `bitk, `nextIn, `availIn, window, `write, `hist, `cmode
      ensures CodesOK() && CodesMeaning() == old(CodesMeaning()) && BitLimit() == old(BitLimit())
      ensures Pos() >= old(Pos()) && (cmode == START || (Pos() > old(Pos()) && cmode in {WASH, BADCODE}))
      ensures RetOK(r) ==> RetOK(r')
    {
      hide Token, Decodes, Mirrors, Holds, Low, Rest, Walk, Longest, EndOfBlock, Run, Pow2, Codes, Room, TreesOK;
      r' := r;
      if Room() >= 258 && availIn >= 10 {
        ghost var n, at;
        ghost var p, h := Pos(), hist;
        r', n, at := InflateFast();
        RunKeepsOutcome(input, code, n, p, h);
        LastSymbol(at, Pos());
        if r' != Ok {
          cmode := if r' == StreamEnd then WASH else BADCODE;
        }
      }
    }

    lemma EndBits()
      requires CodesOK() && cmode == END
      ensures bitk <= 7
    {}

    /** One case of inflate_codes. */
    method CodesStep(r: Ret) returns (leave: bool, r': Ret)
      requires CodesOK() && RetOK(r)
      modifies `bitb, `bitk, `nextIn, `availIn, `output, `availOut, window, `read, `write,
               `cmode, `len, `need, `tree, `lit, `get, `dist, `hist, `budget, `pos0, `hist0
      ensures CodesOK() && CodesMeaning() == old(CodesMeaning()) && BitLimit() == old(BitLimit())
      ensures old(output) <= output && Space() == old(Space()) && Pos() >= old(Pos()) && RetOK(r')
      ensures leave || Pos() > old(Pos()) || CodesRank() < old(CodesRank())
      ensures leave ==> r' in {StreamEnd, DataError} || CodesStalled() || Blocked()
      ensures leave && r' == StreamEnd ==> bitk <= 7
    {
      hide Codes, Decodes, Mirrors, Holds, Low, Rest, Walk, Longest, EndOfBlock, CodesModeOK, TokenOK, TreesOK,
        CodesMeaning, WindowOK, BitsOK, SymbolMeaning, Token, Room, WindowShape, Pow2, Shr, FixedTl, FixedTd,
        CodesStalled, Space;
      leave, r' := false, r;
      match cmode {
        case START =>
          r' := FastStart(r);
          if cmode == START { StepStart(); }
        case LEN => leave, r' := StepLen(r);
        case LENEXT => leave, r' := StepLenExt(r);
        case DIST => leave, r' := StepDist(r);
        case DISTEXT => leave, r' := StepDistExt(r);
        case COPY => leave, r' := StepCopy(r);
        case LIT => leave, r' := StepLit(r);
        case WASH => leave, r' := StepWash(r);
        case END =>
          EndBits();
          leave, r' := true, StreamEnd;
        case BADCODE => leave, r' := true, DataError;
      }
    }

    /** inflate_codes: runs until the input or the output space is used up, the block ends or an error is found.
        At the end of the block there may still be output to deliver, if the end was found by the fast loop. */
    method InflateCodes(r0: Ret) returns (r: Ret)
      requires CodesOK() && RetOK(r0)
      modifies `bitb, `bitk, `nextIn, `availIn, `output, `availOut, window, `read, `write,
               `cmode, `len, `need, `tree, `lit, `get, `dist, `hist, `budget, `pos0, `hist0
      ensures CodesOK() && CodesMeaning() == old(CodesMeaning()) && BitLimit() == old(BitLimit())
      ensures old(output) <= output && Space() == old(Space()) && Pos() >= old(Pos()) && RetOK(r)
      ensures r in {StreamEnd, DataError} || CodesStalled() || Blocked()
      ensures r == StreamEnd ==> bitk <= 7
    {
      hide Codes, Decodes, Mirrors, Holds, Low, Rest, Walk, Longest, EndOfBlock, CodesModeOK, TokenOK, TreesOK,
        CodesMeaning, SymbolMeaning;
      r := r0;
      var leave := false;
      while !leave
        invariant CodesOK() && CodesMeaning() == old(CodesMeaning()) && BitLimit() == old(BitLimit())
        invariant old(output) <= output && Space() == old(Space()) && Pos() >= old(Pos()) && RetOK(r)
        invariant leave ==> r in {StreamEnd, DataError} || CodesStalled() || Blocked()
        invariant leave && r == StreamEnd ==> bitk <= 7
        decreases !leave, BitLimit() - Pos(), CodesRank()
      {
        leave, r := CodesStep(r);
      }
      r := Flush(r);
    }

    // ----- inflate_blocks -----

    /** The table sizes read from the header of a dynamic block. */
    function HeaderRead(): Header
      reads `table, `last
    {
      Header(257 + Low(table, 5), 1 + Low(Shr(table, 5), 5), 4 + Shr(table, 10), last)
    }

    predicate HeaderOK()
      reads `table, `last, `blens
    {
      && Low(table, 5) <= 29 && Low(Shr(table, 5), 5) <= 29 && Shr(table, 10) <= 15
      && blens.Length == HeaderRead().nl + HeaderRead().nd
    }

    /** The lengths of the bit-length code read so far, the others still zero. */
    predicate BitLengthsOK()
      requires blens.Length >= 19
      reads `blens, `index, blens
    {
      && index <= 19
      && (forall i :: 0 <= i < 19 ==> blens[i] <= 7)
      && (forall i :: index <= i < 19 ==> blens[BORDER[i]] == 0)
    }

    ghost predicate LengthsOK()
      reads `blens, `index, `tb, `bb, `cl, blens, hufts
    {
      && index <= blens.Length
      && (forall i :: 0 <= i < index ==> blens[i] <= BMAX)
      && |cl| == 19 && BitTable(hufts[..], tb, bb, cl)
    }

    ghost predicate BlockModeOK()
      requires Pos() >= 0
      reads this, blens, hufts
    {
      match mode
      case LENS => bitk % 8 == 0 && bitk <= 24
      case STORED => bitk == 0 && bitb == 0 && left > 0
      case BTREE => bitk <= 15 && HeaderOK() && BitLengthsOK()
      case DTREE => bitk <= 15 && HeaderOK() && LengthsOK()
      case CODES => bitk <= 15 && TreesOK() && CodesModeOK() && TokenOK()
      case DONE => bitk <= 15 && read == write
      case BAD => true
      case _ => bitk <= 15
    }

    /** The code lengths are allocated in exactly the modes in which inflate_blocks_reset frees them. */
    predicate HeldOK()
      reads `mode, `held
    {
      held <==> mode in {BTREE, DTREE}
    }

    /** Out of memory: the mode is still that of the code lengths, but they are freed. */
    predicate Abandoned()
      reads `mode, `held
    {
      mode == DTREE && !held
    }

    ghost predicate Valid()
      reads this, window, hufts, blens
    {
      BitsOK() && WindowOK() && hufts.Length == MANY && BlockModeOK() && HeldOK()
    }

    /** What decoding the rest of the stream from the current state arrives at. */
    ghost function Meaning(): Outcome
      requires Pos() >= 0 && BlockModeOK()
      reads this, blens, hufts
    {
      match mode
      case TYPE => Blocks(input, Pos(), hist)
      case LENS => Stored(input, last, Pos(), hist)
      case STORED => StoredBytes(input, last, left, Pos(), hist)
      case TABLE => Dynamic(input, last, Pos(), hist)
      case BTREE => BitLengths(input, HeaderRead(), index, blens[..19], Pos(), hist)
      case DTREE => Lengths(input, HeaderRead(), cl, blens[..index], Pos(), hist)
      case CODES => CodesMeaning()
      case DRY => Finished(Pos(), hist)
      case DONE => Finished(Pos(), hist)
      case BAD => Corrupt(hist)
    }

    // What the invariant and the meaning amount to in each mode.

    lemma AtType()
      requires Pos() >= 0 && mode == TYPE
      ensures (BlockModeOK() <==> bitk <= 15) && (BlockModeOK() ==> Meaning() == Blocks(input, Pos(), hist))
    {
      hide Blocks;
    }

    lemma AtLens()
      requires Pos() >= 0 && mode == LENS
      ensures BlockModeOK() <==> bitk % 8 == 0 && bitk <= 24
      ensures BlockModeOK() ==> Meaning() == Stored(input, last, Pos(), hist)
    {
      hide Stored;
    }

    lemma AtStored()
      requires Pos() >= 0 && mode == STORED
      ensures BlockModeOK() <==> bitk == 0 && bitb == 0 && left > 0
      ensures BlockModeOK() ==> Meaning() == StoredBytes(input, last, left, Pos(), hist)
    {
      hide StoredBytes;
    }

    lemma AtTable()
      requires Pos() >= 0 && mode == TABLE
      ensures (BlockModeOK() <==> bitk <= 15) && (BlockModeOK() ==> Meaning() == Dynamic(input, last, Pos(), hist))
    {
      hide Dynamic;
    }

    lemma AtBtree()
      requires Pos() >= 0 && mode == BTREE
      ensures BlockModeOK() <==> bitk <= 15 && HeaderOK() && BitLengthsOK()
      ensures BlockModeOK() ==> blens.Length >= 19
      ensures BlockModeOK() ==> Meaning() == BitLengths(input, HeaderRead(), index, blens[..19], Pos(), hist)
    {
      hide BitLengths, BitLengthsOK;
    }

    lemma AtDtree()
      requires Pos() >= 0 && mode == DTREE
      ensures BlockModeOK() <==> bitk <= 15 && HeaderOK() && LengthsOK()
      ensures BlockModeOK() ==> index <= blens.Length
      ensures BlockModeOK() ==> Meaning() == Lengths(input, HeaderRead(), cl, blens[..index], Pos(), hist)
    {
      hide Lengths, HeaderOK, BitTable;
    }

    lemma AtCodes()
      requires Pos() >= 0 && mode == CODES
      ensures BlockModeOK() <==> bitk <= 15 && TreesOK() && CodesModeOK() && TokenOK()
      ensures BlockModeOK() ==> Meaning() == CodesMeaning()
    {
      hide TreesOK, CodesModeOK, TokenOK, CodesMeaning;
    }

    lemma AtEnd()
      requires Pos() >= 0 && mode in {DRY, DONE, BAD}
      ensures BlockModeOK() <==> mode == BAD || (bitk <= 15 && (mode == DONE ==> read == write))
      ensures BlockModeOK() ==> Meaning() == if mode == BAD then Corrupt(hist) else Finished(Pos(), hist)
    {}

    function BlockRank(): nat
      reads `mode
    {
      match mode
      case BTREE => 5
      case DTREE => 4
      case CODES => 3
      case DRY => 1
      case DONE => 0
      case _ => 2
    }

    /** A repeat code whose extra bits are not all there. */
    ghost predicate RepeatStalled()
      requires Pos() >= 0
      reads `bitk, `nextIn, `cl
    {
      match BitLengthSymbol(cl, input, Pos())
      case Got(s, p) => 16 <= s < 19 && Pos() + bitk < p + (if s == 18 then 7 else s - 14)
      case _ => false
    }

    /** The input has run out before something that takes more bits than are left. */
    ghost predicate Stalled()
      requires Pos() >= 0
      reads `mode, `cmode, `bitk, `get, `need, `nextIn, `availIn, `table, `last, `index, `blens, `bb, `cl
    {
      && availIn == 0
      && match mode
         case TYPE => bitk < 3
         case LENS => bitk < 32
         case STORED => true
         case TABLE => bitk < 14
         case BTREE => index < HeaderRead().ncl && bitk < 3
         case DTREE => index < blens.Length && (bitk < bb || RepeatStalled())
         case CODES => CodesStalled()
         case _ => false
    }

    /** The state after a block. */
    ghost function AfterBlock(): Outcome
      requires Pos() >= 0
      reads `nextIn, `bitk, `last, `hist
    {
      EndOfBlock(input, last, Pos(), hist)
    }

    /** On to the next block or, after the last one, to delivering what is left. */
    method EndBlock()
      requires BitsOK() && bitk <= 15
      modifies `mode
      ensures BlockModeOK() && Meaning() == AfterBlock() && mode in {TYPE, DRY}
    {
      hide Blocks, Holds, BlockModeOK, Meaning;
      mode := if last then DRY else TYPE;
      if last { AtEnd(); } else { AtType(); }
    }

    /** A fixed block: inflate_trees_fixed and inflate_codes_new. */
    method StartFixed()
      requires BitsOK() && bitk <= 15
      modifies `mode, `cmode, `lbits, `ltree, `dbits, `dtree, `code
      ensures BlockModeOK() && mode == CODES
      ensures Meaning() == Codes(input, Code(FixedLit(), FixedDist(), last), Pos(), hist)
    {
      hide Codes, FixedTl, FixedTd, Decodes, FixedLit, FixedDist, Longest, RootBits, NoCodes, Holds, BlockModeOK,
        Meaning, LitTree, DistTree;
      FixedTablesDecode();
      FixedLengths();
      lbits, dbits, ltree, dtree := 9, 5, Ptr(FixedL, 0), Ptr(FixedD, 0);
      code := Code(FixedLit(), FixedDist(), last);
      cmode := START;
      mode := CODES;
      AtCodes();
    }

    /** The block types: stored, fixed, dynamic and illegal. */
    method EnterBlock(kind: nat, r: Ret) returns (leave: bool, r': Ret)
      requires BitsOK() && WindowOK() && hufts.Length == MANY && bitk <= 15 && !held
      modifies `bitb, `bitk, `mode, `cmode, `lbits, `ltree, `dbits, `dtree, `code
      ensures Valid() && BitLimit() == old(BitLimit()) && Pos() >= old(Pos())
      ensures Meaning() ==
              if kind == 0 then Stored(input, last, (old(Pos()) + 7) / 8 * 8, hist)
              else if kind == 1 then Codes(input, Code(FixedLit(), FixedDist(), last), old(Pos()), hist)
              else if kind == 2 then Dynamic(input, last, old(Pos()), hist)
              else Corrupt(hist)
      ensures if leave then r' == DataError && mode == BAD else r' == r
    {
      hide Codes, Holds, Stored, Dynamic, FixedLit, FixedDist, WindowOK, BlockModeOK, Meaning;
      leave, r' := false, r;
      if kind == 0 {
        DumpBits(bitk % 8);
        mode := LENS;
        AtLens();
      } else if kind == 1 {
        StartFixed();
      } else if kind == 2 {
        mode := TABLE;
        AtTable();
      } else {
        mode := BAD;
        AtEnd();
        leave, r' := true, DataError;
      }
    }

    /** TYPE: the header of a block. */
    method StepType(r: Ret) returns (leave: bool, r': Ret)
      requires Valid() && mode == TYPE
      modifies `bitb, `bitk, `nextIn, `availIn, `mode, `last, `cmode, `lbits, `ltree, `dbits, `dtree, `code
      ensures Valid() && Meaning() == old(Meaning()) && BitLimit() == old(BitLimit())
      ensures Pos() > old(Pos()) || (leave && Pos() == old(Pos()))
      ensures leave ==> Stalled() || (r' == DataError && mode == BAD)
      ensures r' == r || r' == Ok || (leave && r' == DataError && mode == BAD)
    {
      hide Codes, Holds, Peek, Stored, Dynamic, FixedLit, FixedDist, WindowOK, BlockModeOK, Meaning, Low, Shr, Pow2;
      AtType();
      TypeFields(input, Pos());
      var ok, t;
      ok, r', t := TakeBits(3, r);
      if !ok {
        AtType();
        return true, r';
      }
      last := Low(t, 1) == 1;
      leave, r' := EnterBlock(Shr(t, 1), r');
    }

    lemma StoredFields(pos: nat)
      ensures Stored(input, last, pos, hist) ==
              if pos + 32 > 8 * |input| then Starved(hist)
              else if Peek(input, pos, 16) + Peek(input, pos + 16, 16) != 0xffff then Corrupt(hist)
              else StoredBytes(input, last, Peek(input, pos, 16), pos + 32, hist)
    {
      hide StoredBytes, Peek;
    }

    /** With all 32 bits in the buffer: the length of a stored block, if the complement behind it agrees. */
    method TakeLengths() returns (ok: bool)
      requires BitsOK() && bitk == 32
      modifies `bitb, `bitk, `mode, `left
      ensures BitsOK() && BlockModeOK() && Meaning() == Stored(input, last, old(Pos()), hist)
      ensures BitLimit() == old(BitLimit()) && if ok then Pos() > old(Pos()) else mode == BAD && Pos() == old(Pos())
      ensures mode in {BAD, STORED, TYPE, DRY}
    {
      hide Holds, Low, Shr, Peek, EndOfBlock, BlockModeOK, Meaning, Pow2, Rest, Sub, Stored, StoredBytes;
      StoredFields(Pos());
      LengthFields(input, bitb, nextIn);
      ok := Low(Shr(Pow2(32) - 1 - bitb, 16), 16) == Low(bitb, 16);
      if !ok {
        mode := BAD;
        AtEnd();
        return;
      }
      left := Low(bitb, 16);
      bitb, bitk := 0, 0;
      EmptyBuffer(input, nextIn);
      if left != 0 {
        mode := STORED;
        AtStored();
      } else {
        EndBlock();
        StoredDone(input, last, Pos(), hist);
      }
    }

    /** LENS: the length of a stored block and its complement. */
    method StepLens(r: Ret) returns (leave: bool, r': Ret)
      requires Valid() && mode == LENS
      modifies `bitb, `bitk, `nextIn, `availIn, `mode, `left
      ensures Valid() && Meaning() == old(Meaning()) && BitLimit() == old(BitLimit())
      ensures Pos() > old(Pos()) || (leave && Pos() == old(Pos()))
      ensures leave ==> Stalled() || (r' == DataError && mode == BAD)
      ensures r' == r || r' == Ok || (leave && r' == DataError && mode == BAD)
    {
      hide Holds, WindowOK, BlockModeOK, Meaning, Stored;
      AtLens();
      var ok;
      ok, r' := NeedBits(32, r);
      if !ok {
        AtLens();
        return true, r';
      }
      ok := TakeLengths();
      leave := !ok;
      if leave { r' := DataError; }
    }

    /** Moves t bytes of the input to the window, behind the write position. */
    method CopyIn(t: nat)
      requires WindowOK() && t <= Room() && nextIn + t <= |input| && t <= availIn
      modifies window, `write, `hist, `nextIn, `availIn
      ensures WindowOK() && hist == old(hist) + input[old(nextIn)..old(nextIn) + t]
      ensures nextIn == old(nextIn) + t && availIn == old(availIn) - t
    {
      hide Mirrors;
      ghost var win := window[..];
      ghost var run := input[nextIn..nextIn + t];
      PutRun(win, win[..write] + run + win[write + t..], write, hist, run);
      forall i | 0 <= i < t { window[write + i] := input[nextIn + i]; }
      assert window[..] == win[..write] + run + win[write + t..];
      write := write + t;
      nextIn, availIn := nextIn + t, availIn - t;
      hist := hist + run;
    }

    /** Copies as many bytes as there are, both to read and to write. */
    method CopyStored()
      requires Valid() && mode == STORED && availIn > 0 && Room() > 0
      modifies `nextIn, `availIn, window, `write, `hist, `mode, `left
      ensures Valid() && Meaning() == old(Meaning()) && BitLimit() == old(BitLimit()) && Pos() > old(Pos())
    {
      hide Mirrors, EndOfBlock, Low, Rest, Sub, Pow2, BlockModeOK, Meaning, Region, Holds, Room, StoredBytes,
        Pending;
      AtStored();
      var t := left;
      if t > availIn { t := availIn; }
      if t > Room() { t := Room(); }
      StoredSplit(input, last, left, nextIn, hist, t);
      CopyIn(t);
      left := left - t;
      EmptyBuffer(input, nextIn);
      StoredDone(input, last, Pos(), hist);
      if left == 0 { EndBlock(); } else { AtStored(); }
    }

    /** STORED: the bytes of a stored block. */
    method StepStored(r: Ret) returns (leave: bool, r': Ret)
      requires Valid() && mode == STORED
      modifies `nextIn, `availIn, window, `read, `write, `output, `availOut, `hist, `mode, `left
      ensures Valid() && Meaning() == old(Meaning()) && BitLimit() == old(BitLimit()) && old(output) <= output
      ensures Space() == old(Space())
      ensures Pos() > old(Pos()) || (leave && Pos() == old(Pos()))
      ensures leave ==> Stalled() || Blocked()
      ensures r' == r || r' == Ok
    {
      hide Mirrors, EndOfBlock, Low, Rest, Sub, Pow2, BlockModeOK, Meaning, Region, WindowOK, Holds, Room,
        StoredBytes, Pending, Space;
      AtStored();
      if availIn == 0 { return true, r; }
      var ok;
      ok, r' := NeedOut(r);
      AtStored();
      if !ok { return true, r'; }
      leave := false;
      CopyStored();
    }

    /** Room for the code lengths, all zero, and on to the lengths of the bit-length code. */
    method StartLengths()
      requires BitsOK() && 14 <= bitk <= 29 && Low(table, 5) <= 29 && Low(Shr(table, 5), 5) <= 29
      requires Shr(table, 10) <= 15
      modifies `bitb, `bitk, `mode, `index, `blens, `held
      ensures BitsOK() && BlockModeOK() && Pos() == old(Pos()) + 14 && BitLimit() == old(BitLimit()) && fresh(blens)
      ensures mode == BTREE && held
      ensures Meaning() == BitLengths(input, HeaderRead(), 0, Repeat(0, 19), Pos(), hist)
    {
      hide Holds, BitLengths, BlockModeOK, Meaning, Low, Shr, WindowOK, Pow2, Rest;
      blens := new nat[258 + Low(table, 5) + Low(Shr(table, 5), 5)](_ => 0);
      held := true;
      assert blens[..19] == Repeat(0, 19);
      BorderRange();
      DumpBits(14);
      index := 0;
      mode := BTREE;
      AtBtree();
    }

    /** TABLE: the three table sizes of a dynamic block. */
    method StepTable(r: Ret) returns (leave: bool, r': Ret)
      requires Valid() && mode == TABLE
      modifies `bitb, `bitk, `nextIn, `availIn, `mode, `table, `index, `blens, `held
      ensures Valid() && Meaning() == old(Meaning()) && BitLimit() == old(BitLimit())
      ensures Pos() > old(Pos()) || (leave && Pos() == old(Pos()))
      ensures leave ==> Stalled() || (r' == DataError && mode == BAD)
      ensures r' == r || r' == Ok || (leave && r' == DataError && mode == BAD)
      ensures blens == old(blens) || fresh(blens)
    {
      hide Holds, Peek, BitLengths, WindowOK, BlockModeOK, Meaning, Low, Shr, Pow2, Repeat;
      AtTable();
      TableFields(input, Pos());
      var ok, t;
      ok, r', t := PeekBits(14, r);
      if !ok {
        AtTable();
        return true, r';
      }
      table := t;
      leave := Low(t, 5) > 29 || Low(Shr(t, 5), 5) > 29;
      if leave {
        mode := BAD;
        AtEnd();
        r' := DataError;
      } else {
        StartLengths();
      }
    }

    /** Puts one length of the bit-length code in its place. */
    method PutBitLength(v: nat)
      requires blens.Length >= 19 && BitLengthsOK() && index < 19 && v <= 7
      modifies `index, blens
      ensures BitLengthsOK() && index == old(index) + 1
      ensures 0 <= BORDER[old(index)] < 19 && blens[..19] == old(blens[..19])[BORDER[old(index)] := v]
    {
      ghost var before := blens[..19];
      BorderRange();
      BorderApart(index);
      blens[BORDER[index]] := v;
      assert blens[..19] == before[BORDER[index] := v];
      index := index + 1;
    }

    lemma NextBitLength(lens: seq<nat>, pos: nat)
      requires pos + 3 <= 8 * |input| && index < HeaderRead().ncl && index < 19 && |lens| == 19
      ensures 0 <= BORDER[index] < 19
      ensures BitLengths(input, HeaderRead(), index, lens, pos, hist) ==
              BitLengths(input, HeaderRead(), index + 1, lens[BORDER[index] := Peek(input, pos, 3)], pos + 3, hist)
    {
      hide Peek, HeaderRead, Lengths, Verdict, NoCodes;
    }

    /** One length of the bit-length code. */
    method BitLength(r: Ret) returns (ok: bool, r': Ret)
      requires Valid() && mode == BTREE && index < HeaderRead().ncl
      modifies `bitb, `bitk, `nextIn, `availIn, `index, blens
      ensures Valid() && Meaning() == old(Meaning()) && BitLimit() == old(BitLimit())
      ensures if ok then index == old(index) + 1 && Pos() > old(Pos())
              else availIn == 0 && bitk < 3 && Pos() == old(Pos()) && index == old(index)
      ensures r' == r || r' == Ok
    {
      hide Holds, Low, Shr, Peek, BitLengths, WindowOK, BlockModeOK, Meaning, BitLengthsOK;
      AtBtree();
      assert Pow2(3) == 8;
      ghost var p, lens := Pos(), blens[..19];
      var ok', v;
      ok', r', v := TakeBits(3, r);
      ok := ok';
      if !ok {
        AtBtree();
        return;
      }
      NextBitLength(lens, p);
      PutBitLength(v);
      AtBtree();
    }

    lemma BorderRange()
      ensures forall i {:trigger BORDER[i]} :: 0 <= i < 19 ==> 0 <= BORDER[i] < 19
    {}

    /** No place in the order comes twice. */
    lemma BorderApart(k: nat)
      requires k < 19
      ensures forall i {:trigger BORDER[i]} :: k < i < 19 ==> BORDER[i] != BORDER[k]
    {}

    /** The remaining lengths of the bit-length code are zero. */
    method ClearRest()
      requires blens.Length >= 19 && BitLengthsOK()
      modifies `index, blens
      ensures blens[..] == old(blens[..]) && index == 19
    {
      BorderRange();
      while index < 19
        invariant BitLengthsOK() && blens[..] == old(blens[..])
      {
        blens[BORDER[index]] := 0;
        index := index + 1;
      }
    }

    lemma BitLengthsRead()
      requires Pos() >= 0 && blens.Length >= 19 && index >= HeaderRead().ncl
      ensures BitLengths(input, HeaderRead(), index, blens[..19], Pos(), hist) ==
              if Verdict(blens[..19]) != Ok || NoCodes(blens[..19]) then Corrupt(hist)
              else Lengths(input, HeaderRead(), blens[..19], [], Pos(), hist)
    {
      hide Lengths, Verdict, NoCodes, HeaderRead;
    }

    /** On to the code lengths of the block. */
    method StartLengthSymbols()
      requires BitsOK() && bitk <= 15 && HeaderOK() && BitTable(hufts[..], tb, bb, blens[..19])
      modifies `mode, `index, `cl
      ensures BlockModeOK() && mode == DTREE && Meaning() == Lengths(input, HeaderRead(), blens[..19], [], Pos(), hist)
    {
      hide Holds, Lengths, BitTable, BlockModeOK, Meaning;
      cl := blens[..19];
      index := 0;
      mode := DTREE;
      assert blens[..index] == [];
      AtDtree();
    }

    /** Invalid code lengths are freed at once. */
    method RejectLengths()
      requires Pos() >= 0
      modifies `mode, `held
      ensures BlockModeOK() && HeldOK() && mode == BAD && Meaning() == Corrupt(hist)
    {
      hide BlockModeOK, Meaning;
      held := false;
      mode := BAD;
      AtEnd();
    }

    /** BTREE, once all lengths are read: the bit-length tables. */
    method BuildBitTable(r: Ret) returns (leave: bool, r': Ret)
      requires Valid() && mode == BTREE && index >= HeaderRead().ncl
      modifies `mode, `index, `tb, `bb, `cl, `held, blens, hufts
      ensures Valid() && Meaning() == old(Meaning())
      ensures if leave then r' == DataError && mode == BAD else r' == r && mode == DTREE
    {
      hide Holds, Low, Shr, Lengths, WindowOK, Verdict, NoCodes, BitTable, BlockModeOK, Meaning, Pow2, Rest, Sub,
        BitLengths, HeaderOK, HeaderRead, BitsOK, LengthsOK;
      PosNonneg();
      AtBtree();
      BitLengthsRead();
      ClearRest();
      leave, r' := false, r;
      var t;
      t, bb, tb := TreesBits(blens[..19], hufts);
      if t != Ok {
        RejectLengths();
        return true, t;
      }
      StartLengthSymbols();
    }

    /** BTREE: the lengths of the bit-length code, and its tables. */
    method StepBtree(r: Ret) returns (leave: bool, r': Ret)
      requires Valid() && mode == BTREE && r in {Ok, BufError}
      modifies `bitb, `bitk, `nextIn, `availIn, `mode, `index, `tb, `bb, `cl, `held, blens, hufts
      ensures Pos() >= old(Pos()) && BitLimit() == old(BitLimit())
      ensures Valid() && Meaning() == old(Meaning())
      ensures leave ==> Stalled() || (r' == DataError && mode == BAD)
      ensures !leave ==> mode == DTREE
      ensures r' == r || r' == Ok || (leave && r' == DataError && mode == BAD)
    {
      hide Meaning, BlockModeOK, WindowOK, Holds, Mirrors, HeaderOK, BitLengthsOK, LengthsOK, BitLengths, HeaderRead;
      r' := r;
      while index < HeaderRead().ncl
        invariant Valid() && mode == BTREE && Meaning() == old(Meaning())
        invariant Pos() >= old(Pos()) && BitLimit() == old(BitLimit())
        invariant r' == r || r' == Ok
        decreases HeaderRead().ncl - index
      {
        var ok;
        ok, r' := BitLength(r');
        if !ok { return true, r'; }
      }
      leave, r' := BuildBitTable(r');
    }

    /** Looks up the next bit-length symbol c of t bits, but does not consume it. */
    method LookUpLength(r: Ret) returns (ok: bool, r': Ret, t: nat, c: nat)
      requires BitsOK() && bitk <= 15 && |cl| == 19 && BitTable(hufts[..], tb, bb, cl)
      modifies `bitb, `bitk, `nextIn, `availIn
      ensures BitsOK() && bitk <= 15 && Pos() == old(Pos()) && BitLimit() == old(BitLimit())
      ensures !ok ==> availIn == 0 && bitk < bb
      ensures ok ==> BitLengthSymbol(cl, input, Pos()) == Got(c, Pos() + t) && 1 <= t <= 7 && t <= bitk && c < 19
      ensures r' == r || r' == Ok
    {
      hide Holds, Low, Peek, BitLengthSymbol, BitEntry;
      t, c := 0, 0;
      ok, r' := NeedBits(bb, r);
      if !ok { return; }
      BitSymbolFound(hufts[..], tb, bb, cl, input, Pos());
      BufferBits(input, bitb, bitk, nextIn, bb);
      var h := hufts[tb + Low(bitb, bb)];
      t, c := h.bits, h.base;
    }

    /** Writes c into n entries from i0 on. */
    method FillLengths(i0: nat, c: nat, n: nat)
      requires 1 <= n && i0 + n <= blens.Length
      modifies blens
      ensures blens[..i0 + n] == old(blens[..i0]) + Repeat(c, n)
    {
      var i, j := i0, n;
      while true
        invariant 1 <= j && i + j == i0 + n && i0 <= i
        invariant blens[..i] == old(blens[..i0]) + Repeat(c, i - i0)
        decreases j
      {
        blens[i] := c;
        assert blens[..i + 1] == blens[..i] + [c];
        assert Repeat(c, i + 1 - i0) == Repeat(c, i - i0) + [c];
        i := i + 1;
        j := j - 1;
        if j == 0 { break; }
      }
    }

    /** A length symbol below 16: the length itself. */
    method OneLength(t: nat, c: nat)
      requires Valid() && mode == DTREE && index < blens.Length && c < 16 && 1 <= t <= bitk
      requires BitLengthSymbol(cl, input, Pos()) == Got(c, Pos() + t)
      modifies `bitb, `bitk, `index, blens
      ensures Valid() && Meaning() == old(Meaning()) && BitLimit() == old(BitLimit()) && Pos() == old(Pos()) + t
    {
      hide Holds, WindowOK, BitLengthSymbol, BitTable, Low, Shr, Trees, BlockModeOK, Meaning, Pow2, Rest, Sub;
      AtDtree();
      DumpBits(t);
      blens[index] := c;
      assert blens[..index + 1] == old(blens[..index]) + [c];
      index := index + 1;
      AtDtree();
    }

    /** NEEDBITS(t + i): drops t bits and takes i. */
    method ExtraBits(t: nat, i: nat, r: Ret) returns (ok: bool, r': Ret, v: nat)
      requires BitsOK() && bitk <= 15 && t <= 7 && i <= 7
      modifies `bitb, `bitk, `nextIn, `availIn
      ensures BitsOK() && bitk <= 15 && BitLimit() == old(BitLimit())
      ensures !ok ==> availIn == 0 && Pos() == old(Pos()) && bitk < t + i
      ensures ok ==> Pos() == old(Pos()) + t + i <= 8 * |input| && v == Peek(input, old(Pos()) + t, i)
      ensures r' == r || r' == Ok
    {
      hide Holds, Peek, Pow2;
      v := 0;
      ok, r' := NeedBits(t + i, r);
      if !ok { return; }
      DumpBits(t);
      BufferBits(input, bitb, bitk, nextIn, i);
      v := Low(bitb, i);
      DumpBits(i);
    }

    method ExtendLengths(v: nat, n: nat)
      requires LengthsOK() && v <= BMAX && 1 <= n && index + n <= blens.Length
      modifies `index, blens
      ensures LengthsOK() && index == old(index) + n && blens[..index] == old(blens[..index]) + Repeat(v, n)
    {
      hide BitTable;
      FillLengths(index, v, n);
      index := index + n;
    }

    /** A repeat code: false when the input ran out, before anything is consumed; or when it does not fit. */
    method RepeatLength(t: nat, c: nat, r: Ret) returns (leave: bool, r': Ret)
      requires Valid() && mode == DTREE && index < blens.Length && 16 <= c < 19 && 1 <= t <= 7 && t <= bitk
      requires BitLengthSymbol(cl, input, Pos()) == Got(c, Pos() + t)
      modifies `bitb, `bitk, `nextIn, `availIn, `mode, `index, `held, blens
      ensures Valid() && Meaning() == old(Meaning()) && BitLimit() == old(BitLimit())
      ensures if leave then
                || (mode == BAD && r' == DataError && Pos() >= old(Pos()))
                || (mode == DTREE && Stalled() && Pos() == old(Pos()))
              else mode == DTREE && Pos() > old(Pos())
      ensures r' == r || r' == Ok || (leave && r' == DataError && mode == BAD)
    {
      hide Holds, WindowOK, BitLengthSymbol, BitTable, Low, Shr, Trees, Pow2, Peek, BlockModeOK, Meaning;
      AtDtree();
      var i := if c == 18 then 7 else c - 14;
      var j := if c == 18 then 11 else 3;
      var ok, extra;
      ok, r', extra := ExtraBits(t, i, r);
      if !ok {
        AtDtree();
        return true, r';
      }
      j := j + extra;
      i := index;
      if i + j > blens.Length || (c == 16 && i < 1) {
        RejectLengths();
        return true, DataError;
      }
      leave := false;
      ExtendLengths(if c == 16 then blens[i - 1] else 0, j);
      AtDtree();
    }

    /** inflate_codes_new. */
    method StartCodes(bl: nat, bd: nat, tl: nat, td: nat, lit: seq<nat>, dist: seq<nat>)
      requires BitsOK() && bitk <= 15 && LitTable(hufts[..], tl, bl, lit)
      requires if NoCodes(dist) then |lit| <= 257 else DistTable(hufts[..], td, bd, dist)
      modifies `mode, `cmode, `lbits, `ltree, `dbits, `dtree, `code
      ensures BlockModeOK() && mode == CODES && Meaning() == Codes(input, Code(lit, dist, last), Pos(), hist)
    {
      hide Holds, Codes, NoCodes, LitTable, DistTable, BlockModeOK, Meaning;
      lbits, dbits, ltree, dtree := bl, bd, Ptr(Own, tl), Ptr(Own, td);
      code := Code(lit, dist, last);
      cmode := START;
      mode := CODES;
      AtCodes();
    }

    /** DTREE, once all lengths are read: the tables of the block's two codes. */
    method BuildTrees(r: Ret) returns (leave: bool, r': Ret)
      requires Valid() && mode == DTREE && index == blens.Length && r in {Ok, BufError}
      modifies `mode, `cmode, `lbits, `ltree, `dbits, `dtree, `code, `held, hufts
      ensures if r' == MemError then old(Meaning()) == Corrupt(hist) && Abandoned()
              else Valid() && Meaning() == old(Meaning())
      ensures leave <==> r' in {MemError, DataError} && mode != CODES
      ensures if leave then r' == MemError || mode == BAD else r' == r && mode == CODES
    {
      hide Holds, Low, Shr, Codes, WindowOK, LitOK, DistOK, NoCodes, LitTable, DistTable, BitTable, BitLengthSymbol,
        BlockModeOK, Meaning, Pow2, Rest, OutOfEntries;
      AtDtree();
      leave, r' := false, r;
      var nl, nd := 257 + Low(table, 5), 1 + Low(Shr(table, 5), 5);
      ghost var lens := blens[..];
      assert blens[..index] == lens;
      assert Meaning() == Trees(input, HeaderRead(), lens, Pos(), hist);
      var t, bl, bd, tl, td := TreesDynamic(nl, nd, blens[..], hufts);
      held := false;
      if t == Ok {
        StartCodes(bl, bd, tl, td, blens[..nl], blens[nl..]);
        return;
      }
      if t == DataError {
        mode := BAD;
        AtEnd();
      }
      leave, r' := true, t;
    }

    /** One symbol of DTREE. */
    method LengthSymbol(r: Ret) returns (leave: bool, r': Ret)
      requires Valid() && mode == DTREE && index < blens.Length
      modifies `bitb, `bitk, `nextIn, `availIn, `mode, `index, `held, blens
      ensures Valid() && Meaning() == old(Meaning()) && BitLimit() == old(BitLimit())
      ensures if leave then
                || (mode == BAD && r' == DataError && Pos() >= old(Pos()))
                || (mode == DTREE && Stalled() && Pos() == old(Pos()))
              else mode == DTREE && Pos() > old(Pos())
      ensures r' == r || r' == Ok || (leave && r' == DataError && mode == BAD)
    {
      hide Holds, Mirrors, BitLengthSymbol, BitTable, HeaderOK, Lengths, HeaderRead;
      var ok, t, c;
      ok, r', t, c := LookUpLength(r);
      if !ok { return true, r'; }
      if c < 16 {
        OneLength(t, c);
        leave := false;
      } else {
        leave, r' := RepeatLength(t, c, r');
      }
    }

    /** DTREE: the code lengths of the block's two codes, and their tables. */
    method StepDtree(r: Ret) returns (leave: bool, r': Ret)
      requires Valid() && mode == DTREE && r in {Ok, BufError}
      modifies `bitb, `bitk, `nextIn, `availIn, `mode, `index, `cmode, `lbits, `ltree, `dbits, `dtree, `code, `held,
        blens, hufts
      ensures BitsOK() && WindowOK() && Pos() >= old(Pos()) && BitLimit() == old(BitLimit())
      ensures if r' == MemError then old(Meaning()) == Corrupt(hist) && Abandoned()
              else Valid() && Meaning() == old(Meaning())
      ensures leave ==> Stalled() || r' == MemError || (r' == DataError && mode == BAD)
      ensures !leave ==> mode == CODES
      ensures r' == r || r' == Ok || (leave && (r' == MemError || (r' == DataError && mode == BAD)))
    {
      hide Meaning, BlockModeOK, WindowOK, Holds, Mirrors, HeaderOK, Lengths, HeaderRead, BitTable;
      r' := r;
      while index < blens.Length
        invariant Valid() && mode == DTREE && Meaning() == old(Meaning())
        invariant Pos() >= old(Pos()) && BitLimit() == old(BitLimit())
        invariant r' == r || r' == Ok
        decreases BitLimit() - Pos()
      {
        leave, r' := LengthSymbol(r');
        if leave { return; }
      }
      AtDtree();
      leave, r' := BuildTrees(r');
    }

    /** The data was found to be invalid. */
    predicate Failed()
      reads `mode, `cmode
    {
      mode == BAD || (mode == CODES && cmode == BADCODE)
    }

    /** Why inflate_blocks stops: it has delivered everything, found invalid data or no memory, or lacks input or
        room. */
    ghost predicate Stopped(r: Ret)
      requires Pos() >= 0
      reads `mode, `cmode, `bitk, `get, `need, `nextIn, `availIn, `availOut, `read, `write, `table, `last, `index,
        `blens, `bb, `cl, `held
    {
      match r
      case StreamEnd => mode == DONE
      case DataError => Failed()
      case MemError => Abandoned()
      case _ => Blocked() || Stalled()
    }

    /** CODES: the symbols of a block. */
    method StepCodes(r: Ret) returns (leave: bool, r': Ret)
      requires Valid() && mode == CODES && r in {Ok, BufError}
      modifies `bitb, `bitk, `nextIn, `availIn, `output, `availOut, window, `read, `write, `mode,
               `cmode, `len, `need, `tree, `lit, `get, `dist, `hist, `budget, `pos0, `hist0
      ensures Valid() && Meaning() == old(Meaning()) && BitLimit() == old(BitLimit())
      ensures old(output) <= output && Space() == old(Space()) && Pos() >= old(Pos())
      ensures if leave then r' in {Ok, BufError, DataError} && Stopped(r') else r' == Ok && mode in {TYPE, DRY}
    {
      hide WindowOK, CodesModeOK, TokenOK, TreesOK, Codes, EndOfBlock, Holds, HeaderOK, BitLengthsOK, LengthsOK,
        RepeatStalled;
      r' := InflateCodes(r);
      leave := r' != StreamEnd;
      if !leave {
        r' := Ok;
        CodesEnded();
        EndBlock();
      }
    }

    lemma CodesEnded()
      requires CodesOK() && cmode in {WASH, END}
      ensures CodesMeaning() == AfterBlock()
    {}

    /** DRY: waits until everything is delivered. */
    method StepDry(r: Ret) returns (leave: bool, r': Ret)
      requires Valid() && mode == DRY
      modifies `output, `availOut, `read, `write, `mode
      ensures Valid() && Meaning() == old(Meaning()) && old(output) <= output && Space() == old(Space())
      ensures if leave then Blocked() else mode == DONE
      ensures r' == r || r' == Ok
    {
      hide Holds, Mirrors;
      r' := Flush(r);
      leave := read != write;
      if !leave { mode := DONE; }
    }

    /** One case of inflate_blocks. */
    method BlockStep(r: Ret) returns (leave: bool, r': Ret)
      requires Valid() && r in {Ok, BufError}
      modifies this, window, hufts, blens
      ensures BitsOK() && WindowOK() && BitLimit() == old(BitLimit())
      ensures old(output) <= output && Space() == old(Space()) && Pos() >= old(Pos())
      ensures if r' == MemError then old(Meaning()) == Corrupt(hist) else Valid() && Meaning() == old(Meaning())
      ensures if leave then Stopped(r')
              else r' in {Ok, BufError} && (Pos() > old(Pos()) || BlockRank() < old(BlockRank()))
      ensures blens == old(blens) || fresh(blens)
    {
      hide Meaning, BlockModeOK, Holds, Mirrors, WindowOK, BitsOK, Stalled, HeldOK;
      match mode {
        case TYPE => leave, r' := StepType(r);
        case LENS => leave, r' := StepLens(r);
        case STORED => leave, r' := StepStored(r);
        case TABLE => leave, r' := StepTable(r);
        case BTREE => leave, r' := StepBtree(r);
        case DTREE => leave, r' := StepDtree(r);
        case CODES => leave, r' := StepCodes(r);
        case DRY => leave, r' := StepDry(r);
        case DONE => leave, r' := true, StreamEnd;
        case BAD => leave, r' := true, DataError;
      }
    }

    /** The delivery on the way out. */
    method FlushAtExit(r: Ret) returns (r': Ret)
      requires BitsOK() && WindowOK() && (r == MemError || Valid()) && Stopped(r)
      modifies `output, `availOut, `read, `write
      ensures BitsOK() && WindowOK() && hist == old(hist) && (r == MemError || (Valid() && Meaning() == old(Meaning())))
      ensures old(output) <= output && Space() == old(Space()) && (Blocked() || read == write) && Stopped(r')
      ensures r' == r || (r == BufError && r' == Ok)
    {
      hide Holds, Mirrors, TreesOK, CodesModeOK, TokenOK, HeaderOK, BitLengthsOK, LengthsOK, Stalled, Failed,
        CodesMeaning;
      r' := Flush(r);
    }

    /** inflate_blocks: decodes as far as the available input and the output space allow. */
    method InflateBlocks(r0: Ret) returns (r: Ret)
      requires Valid() && r0 in {Ok, BufError}
      modifies this, window, hufts, blens
      ensures if r == MemError then old(Meaning()) == Corrupt(hist) else Valid() && Meaning() == old(Meaning())
      ensures BitsOK() && WindowOK() && BitLimit() == old(BitLimit()) && Pos() >= old(Pos())
      ensures old(output) <= output && Space() == old(Space()) && Stopped(r) && (Blocked() || read == write)
      ensures hist <= old(Meaning()).hist
      ensures blens == old(blens) || fresh(blens)
    {
      hide Meaning, BlockModeOK, Holds, Mirrors;
      r := r0;
      Ahead();
      var leave := false;
      while !leave
        invariant BitsOK() && WindowOK() && BitLimit() == old(BitLimit()) && Pos() >= old(Pos())
        invariant if r == MemError then old(Meaning()) == Corrupt(hist) else Valid() && Meaning() == old(Meaning())
        invariant hist <= old(Meaning()).hist
        invariant if leave then Stopped(r) else r in {Ok, BufError}
        invariant old(output) <= output && Space() == old(Space()) && (blens == old(blens) || fresh(blens))
        decreases !leave, BitLimit() - Pos(), BlockRank()
      {
        leave, r := BlockStep(r);
        if r != MemError { Ahead(); }
      }
      r := FlushAtExit(r);
    }

    // ----- output is a prefix -----

    lemma CodesAhead()
      requires Pos() >= 0 && TokenOK()
      ensures hist <= CodesMeaning().hist
    {
      hide Codes, EndOfBlock;
      match cmode
      case START => CodesExtends(input, code, Pos(), hist);
      case WASH => EndExtends(input, code.last, Pos(), hist);
      case END => EndExtends(input, code.last, Pos(), hist);
      case BADCODE =>
      case COPY => CopyAhead();
      case _ => CodesExtends(input, code, pos0, hist0);
    }

    lemma CopyAhead()
      requires Pos() >= 0 && TokenOK() && cmode == COPY
      ensures hist <= Codes(input, code, pos0, hist0).hist
    {
      hide Token;
      CodesExtends(input, code, Pos(), Copied(hist, len, dist));
    }

    /** Everything produced so far is the beginning of what the stream stands for. */
    lemma Ahead()
      requires Valid()
      ensures hist <= Meaning().hist
    {
      hide CodesModeOK, TreesOK, TokenOK, Blocks, Stored, StoredBytes, Dynamic, BitLengths, Lengths, CodesMeaning,
        BitTable, Holds;
      match mode
      case TYPE => BlocksExtends(input, Pos(), hist);
      case LENS => StoredExtends(input, last, Pos(), hist);
      case STORED => StoredBytesExtends(input, last, left, Pos(), hist);
      case TABLE => DynamicExtends(input, last, Pos(), hist);
      case BTREE => BitLengthsExtends(input, HeaderRead(), index, blens[..19], Pos(), hist);
      case DTREE => LengthsExtends(input, HeaderRead(), cl, blens[..index], Pos(), hist);
      case CODES => CodesAhead();
      case _ =>
    }

    /** What StreamEnd and DataError say about the stream. */
    lemma Answered(r: Ret)
      requires Valid() && Stopped(r)
      ensures r == StreamEnd ==> Meaning() == Finished(Pos(), hist) && output == hist[WSIZE..]
      ensures r == DataError ==> Meaning() == Corrupt(hist)
    {
      hide Holds, Mirrors, CodesModeOK, TokenOK, TreesOK;
    }

    // ----- what a stall means -----

    /** A lookup that is short of bits at the end of the input: the reference decoder finds no symbol either. */
    lemma SymbolStarves()
      requires CodesOK() && CodesStalled() && BitLimit() == 8 * |input|
      ensures SymbolMeaning() == NoInput
    {
      hide Token, Decodes, Mirrors, Holds, Rest, Longest, Pow2, TreesOK, WindowOK, TokenOK, NextLeaf, Walk;
      if cmode == LEN { LinkStep(Entries(tree.space), tree.off, need, budget, input, Pos()); }
      if cmode == DIST { LinkStep(Entries(tree.space), tree.off, need, budget, input, Pos()); }
    }

    lemma CodesStarve()
      requires CodesOK() && CodesStalled() && BitLimit() == 8 * |input|
      ensures CodesMeaning() == Starved(hist)
    {
      hide Token, Decodes, Mirrors, Holds, Rest, Longest, Pow2, TreesOK, WindowOK, NextLeaf, Walk, EndOfBlock,
        SymbolMeaning, CodesModeOK;
      SymbolStarves();
    }

    /** Once all the input has been made available, the decoder stops for lack of input exactly where the reference
        decoder has no bits left for the next field or lookup. */
    lemma StalledStarves()
      requires Valid() && Stalled() && BitLimit() == 8 * |input|
      ensures Meaning() == Starved(hist)
    {
      hide BlockModeOK, Meaning, Holds, Mirrors, WindowOK, CodesModeOK, TokenOK, TreesOK, CodesMeaning, BitTable, Peek;
      match mode
      case TYPE => AtType();
      case LENS => AtLens();
      case STORED => StoredStarves();
      case TABLE => AtTable();
      case BTREE => AtBtree();
      case DTREE => LengthsStarve();
      case CODES =>
        AtCodes();
        CodesStarve();
      case _ =>
    }

    lemma StoredStarves()
      requires Valid() && Stalled() && mode == STORED && BitLimit() == 8 * |input|
      ensures Meaning() == Starved(hist)
    {
      hide BlockModeOK, Meaning, Holds, Mirrors;
      AtStored();
    }

    lemma LengthsStarve()
      requires Valid() && Stalled() && mode == DTREE && BitLimit() == 8 * |input|
      ensures Meaning() == Starved(hist)
    {
      hide BlockModeOK, Meaning, Holds, Mirrors, BitTable, BitLengthSymbol, Peek, Trees;
      AtDtree();
      if bitk < bb { BitSymbolFound(hufts[..], tb, bb, cl, input, Pos()); }
    }

    // ----- whole runs -----

    /** The caller makes some more of the input available, and some more room for output. */
    method Supply(more: nat, room: nat)
      requires Valid()
      modifies `availIn, `availOut
      ensures Valid() && Meaning() == old(Meaning())
      ensures availOut == old(availOut) + room && output == old(output)
      ensures nextIn + availIn == AtMost(old(nextIn + availIn) + more, |input|)
    {
      hide Holds, Mirrors, CodesModeOK, TokenOK, TreesOK;
      availIn := if nextIn + availIn + more <= |input| then availIn + more else |input| - nextIn;
      availOut := availOut + room;
    }

    /** What waits for room has not been written to the output yet. */
    lemma Waiting()
      requires WindowOK() && Blocked()
      ensures |output| + WSIZE < |hist|
    {}

    /** One call, with some more input and some more room for output. */
    method Call(more: nat, room: nat) returns (r: Ret)
      requires Valid()
      modifies this, window, hufts, blens
      ensures BitsOK() && WindowOK() && hist <= old(Meaning()).hist && old(output) <= output
      ensures Space() == old(Space()) + room && nextIn + availIn == AtMost(old(nextIn + availIn) + more, |input|)
      ensures if r in {Ok, BufError} then Valid() && Meaning() == old(Meaning()) && Stopped(r)
              else old(Meaning()) == if r == StreamEnd then Finished(Pos(), hist) else Corrupt(hist)
      ensures (Blocked() || output == hist[WSIZE..]) && (r == StreamEnd ==> output == hist[WSIZE..])
      ensures r == MemError ==> Abandoned()
      ensures blens == old(blens) || fresh(blens)
    {
      hide Meaning, BlockModeOK, Holds, Mirrors;
      Supply(more, room);
      r := InflateBlocks(BufError);
      if r !in {Ok, BufError, MemError} { Answered(r); }
    }

    /** A whole run: before each call there is some more input and some more room for output. Whatever the schedule,
        the output is the beginning of what the stream stands for. Once all the input has been made available and if
        there was room enough for all the output, the run has the outcome of the reference decoder: the end exactly if
        the stream ends, an error exactly if it is invalid, otherwise a wait for more input; and everything that was
        decoded has come out. */
    method Drive(schedule: seq<(nat, nat)>) returns (r: Ret)
      requires Valid()
      modifies this, window, hufts, blens
      ensures BitsOK() && WSIZE <= |hist| && hist <= old(Meaning()).hist
      ensures old(output) <= output <= old(Meaning()).hist[WSIZE..]
      ensures r == StreamEnd ==> old(Meaning()) == Finished(Pos(), hist) && output == hist[WSIZE..]
      ensures r in {DataError, MemError} ==> old(Meaning()) == Corrupt(hist)
      ensures r in {DataError, MemError} ==> availOut == 0 || output == hist[WSIZE..]
      ensures r == MemError ==> Abandoned()
      ensures r in {Ok, BufError} ==> Valid() && Meaning() == old(Meaning())
      ensures r in {Ok, BufError} && schedule != [] ==> Blocked() || (availIn == 0 && output == hist[WSIZE..])
      ensures r in {Ok, BufError} ==>
                && Space() == old(Space()) + Rooms(schedule)
                && nextIn + availIn == AtMost(old(nextIn + availIn) + Offered(schedule), |input|)
      ensures schedule != [] && old(nextIn + availIn) + Offered(schedule) >= |input|
              && old(Space()) + Rooms(schedule) + WSIZE >= |old(Meaning()).hist| ==>
                && (r == StreamEnd <==> old(Meaning()).Finished?)
                && (r in {DataError, MemError} <==> old(Meaning()).Corrupt?)
                && (r in {Ok, BufError} <==> old(Meaning()).Starved?)
                && (!old(Meaning()).Corrupt? ==> output == old(Meaning()).hist[WSIZE..])
    {
      hide Meaning, BlockModeOK, Holds, Mirrors, WindowShape, Room, Pending;
      r := Ok;
      Ahead();
      for i := 0 to |schedule|
        invariant Valid() && Meaning() == old(Meaning()) && r in {Ok, BufError}
        invariant hist <= old(Meaning()).hist && old(output) <= output
        invariant Space() == old(Space()) + Rooms(schedule[..i])
        invariant nextIn + availIn == AtMost(old(nextIn + availIn) + Offered(schedule[..i]), |input|)
        invariant blens == old(blens) || fresh(blens)
        invariant i > 0 ==> Stopped(r) && (Blocked() || output == hist[WSIZE..])
      {
        OneMoreCall(schedule, i);
        r := Call(schedule[i].0, schedule[i].1);
        if r !in {Ok, BufError} { return; }
      }
      assert schedule[..|schedule|] == schedule;
      if schedule != [] && nextIn + availIn == |input| {
        if Blocked() { Waiting(); } else { StalledStarves(); }
      }
    }

    /** inflate_blocks_new and inflate_blocks_reset: an empty window, nothing read and nothing written. */
    constructor (data: seq<byte>)
      ensures Valid() && fresh(window) && fresh(hufts) && fresh(blens)
      ensures input == data && Meaning() == Inflate(data, Blank())
      ensures output == [] && nextIn == 0 && availIn == 0 && availOut == 0
    {
      input, nextIn, availIn, output, availOut := data, 0, 0, [], 0;
      mode, last, bitb, bitk, read, write := TYPE, false, 0, 0, 0, 0;
      window := new byte[WSIZE](_ => 0);
      hufts := new Huft[MANY](_ => Huft(0, 0, 0));
      blens, held := new nat[0], false;
      left, table, index, bb, tb := 0, 0, 0, 0, 0;
      cmode, len, need, lit, get, dist, lbits, dbits := START, 0, 0, 0, 0, 0, 0, 0;
      tree, ltree, dtree := Ptr(Own, 0), Ptr(Own, 0), Ptr(Own, 0);
      hist, code, budget, pos0, hist0, cl := Blank(), Code([], [], false), 0, 0, [], [];
      new;
      EmptyBuffer(input, 0);
      assert window[..] == hist;
      BlankWindow();
    }
  }
}
