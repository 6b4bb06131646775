# A model of the hard core of the repository

The centre of the project is the DEFLATE decoder of `DuiLib/Utils/XUnzip.cpp`: the table builder `huft_build`, the
suspendable decoder `inflate_blocks` / `inflate_codes`, its fast loop `inflate_fast` and the circular window. Around it
stand the checksums and the directory search of the same file, and six self-contained parts of other files: MD5,
Base64, the event pipeline, the intrusive lists of the pipe server, the layout arithmetic, and the registry rules.

How the decoder part is put together:

- `Bits` holds the machine words (shifts, masks, or, exclusive or, bit reversal) as natural numbers.
- `Canonical` defines canonical prefix codes and the verdict on a vector of lengths. `CodeSpace` and the `Huft*` modules
  follow `huft_build` up to `HuftBuild.Build`: `HuftTable` says what it means for tables to decode a code, including how
  many bits the lookups ask for; `HuftStack`, `HuftAdvance`, `HuftOpen` and `HuftLoop` keep the open tables right;
  `HuftSpace` says from the lengths how many entries the tables take, `HuftLedger` bounds that; `HuftSkip`, `HuftChain`
  and `HuftGap` find the codes for which the tables come out wrong, and `HuftExamples` builds some.
- `Deflate` is the reference: a one-shot recursive decoder of RFC 1951 over a bit sequence, which knows nothing of
  tables, buffers or windows. It reads a symbol bit by bit, as RFC 1951 has it, and then takes distances beyond the first
  byte or is strict about them; or only when there are as many bits as the lookups of this decoder ask for. `Progress` and
  `LengthCode` prove properties of it; `Readings` and `Distances` relate the ways of reading.
- `Written` says the same from the writer's side, without `Deflate`: what it means that blocks stand in a file as RFC 1951
  has it, each with its items (literals and copies), lengths as tokens, and codes, and what they contain. The strict
  reading succeeds exactly on what is so written (`Written.ReadIffWritten`).
- `BitBuffer`, `Window`, `TableDecode`, `FixedTables`, `BlockHeader` and `InflateTrees` connect the pieces of the
  decoder's state to the reference.
- `Inflater` is the decoder as one class whose methods are the cases of the two state machines. `Meaning()` is what the
  reference makes of the rest of the stream from the current state. Every case keeps it, and a stall with all the input
  read means that the reference has run out of bits at the same place. `Runs` states what follows for a new decoder and
  any schedule of input and output space: the output is the beginning of what RFC 1951 makes of the stream, and with all
  the input and room enough the run has exactly the outcome of the reference.

Constants and tables are tied to what the standards say of them, not only used on both sides of a proof: `FixedTables`
gives the codewords of sections 3.2.2 and 3.2.6 of RFC 1951, `CrcKnown` the polynomial, an entry of the table and the
check value of the CRC, `Md5Known` the digest of a known message, `Base64` two known encodings. `BitWords` connects bit
vectors with the words as numbers, for those computations.

Where the code does something its comments or RFC 1951 do not say, the model follows the code:

- Table lookups ask for as many bits as the table takes, not as the codeword has. So the decoder may wait for input that
  a complete stream does not have. A run over the whole input comes to the end exactly if every field and every lookup
  fits before the end of the input (`Runs.Decompress`), and one byte behind the stream is enough for that. When it waits
  instead, the end of the stream lies within the last byte, and all output has come out exactly if what it waits for is
  the end of the last block (`Readings.ReadingsRelate`). Both happen: for `99 64 2 0` all twelve zeros come out, only
  `Z_STREAM_END` does not (`Runs.LateRun`); of the nine zeros that the sixteen bytes of `LostOutput.Lost` stand for the
  last two never come out (`LostOutput.LostRun`).
- `huft_build` makes wrong tables if, under some prefix that ends where a table ends, every codeword is too long for the
  next table: it then opens a table of more bits than the link to it is given. `HuftBuild.Build` decodes exactly if there
  is no such prefix (`HuftExamples.NarrowTables`: with tables of one bit the lengths 1, 3, 3, 3, 3 fail and 1, 2, 3, 3 do
  not). No complete code of fewer than 2^(m + 1) symbols has one (`HuftSkip.FewNeverSkip`), so the program's own calls
  are all right (`InflateTrees.TreesBits`, `InflateTrees.TreesDynamic`).
- The 1440 table entries are enough for every dynamic block that is valid. For other blocks the answer is `Z_MEM_ERROR`
  instead of `Z_DATA_ERROR` exactly if the tables of the literal/length code, or of both codes together, take more entries
  than that (`InflateTrees.TreesDynamic`; `HuftSpace.TableEntries` gives the number from the lengths). One codeword of 1
  bit and one of 11 bits or more are enough, 1 and 10 bits are not (`HuftExamples.OutOfSpace`). After `Z_MEM_ERROR` the
  code lengths are freed while the mode is still the one in which `inflate_blocks_reset` frees them; at every other exit
  they are allocated exactly in those modes (`Inflater.Inflater.InflateBlocks`).
- A bit-length code that is a lone codeword of one bit is accepted, and the decoder then takes the other bit for the same
  symbol too, because the unused table entry keeps the `base` of the one before it
  (`LengthCode.BitLengthSymbolsExact`, `LengthCode.LoneZeroOdd`). All ways of reading in `Deflate` do so.
- Distances may reach back beyond the first byte produced, which section 3.2.3 of RFC 1951 forbids; the decoder then
  copies what the window holds, zeros at first. What it makes of a stream differs from what a strict reader makes of it
  exactly if there is such a distance (`Distances.PriorMatters`).

## Model

| member | source | states |
|---|---|---|
| `Bits.OrExtends` | DuiLib/Utils/XUnzip.cpp:893-896 | or-ing the next bits in above position k extends the agreement with the stream, whatever agreeing bits are already there |
| `Bits.ShiftIsDivision` | DuiLib/Utils/XUnzip.cpp:896 | shifting and masking are division and remainder by the power of two |
| `Canonical.DecodeIffMatches` | DuiLib/Utils/XUnzip.cpp:1914-2007 | decoding finds a symbol exactly if its canonical codeword is a prefix of the input; so at most one symbol can match |
| `Canonical.CompleteIffTotal` | DuiLib/Utils/XUnzip.cpp:1888-1894 | a code that is not over-subscribed decodes every input exactly if its Kraft sum is one |
| `CodeSpace.BackwardIncrement` | DuiLib/Utils/XUnzip.cpp:1993-1996 | incrementing the bit-reversed code from its top bit down gives the reversal of the next code |
| `CodeSpace.LongestUnderMeans` | DuiLib/Utils/XUnzip.cpp:1936-1951 | the longest codeword under a prefix, by which a table is sized, is the longest the code has there |
| `CodeSpace.LookaheadCovers` | DuiLib/Utils/XUnzip.cpp:1248-1251 | the bits the lookups ask for before a symbol is known include its whole codeword |
| `HuftSort.CountLengths` | DuiLib/Utils/XUnzip.cpp:1853-1862 | counts how many symbols have each length |
| `HuftSort.LengthRange` | DuiLib/Utils/XUnzip.cpp:1871-1885 | the shortest and longest length in use, and the table size brought between them |
| `HuftSort.FreeCodes` | DuiLib/Utils/XUnzip.cpp:1888-1894 | the codewords left over at the longest length, negative exactly if the Kraft sum exceeds one |
| `HuftSort.SortByLength` | DuiLib/Utils/XUnzip.cpp:1897-1911 | lists the symbols of nonzero length by length |
| `HuftSort.InOrderIsStableSort` | DuiLib/Utils/XUnzip.cpp:1905-1911 | that list is sorted by length, stable, and has every symbol with a code once |
| `HuftOpen.TableBits` | DuiLib/Utils/XUnzip.cpp:1936-1951 | a table takes at most l bits if the code allows, and ends with its last code or has l bits |
| `HuftOpen.OpenTable` | DuiLib/Utils/XUnzip.cpp:1931-1971 | a new table is allocated behind the others and linked in at the entry of its prefix |
| `HuftSpace.SizedEntries` | DuiLib/Utils/XUnzip.cpp:1936-1951 | the size loop makes a table of as many entries as the lengths call for under its prefix |
| `HuftSpace.OpenedNext` | DuiLib/Utils/XUnzip.cpp:1925-1957 | with the tables of a codeword open, every table that starts before the next codeword has been opened, on every level, and no other |
| `HuftSpace.OpenedAll` | DuiLib/Utils/XUnzip.cpp:1918-2007 | at the end of the code space that is one table for each prefix that longer codewords start with |
| `HuftLedger.PayFor` | DuiLib/Utils/XUnzip.cpp:1953-1957 | each new table is paid for by the codes under it and by what the codes that straddle its level have left, so the total stays within a bound |
| `HuftLedger.NineBitSpace` | DuiLib/Utils/XUnzip.cpp:750 | with tables of nine bits, n codes take at most n + 636 entries |
| `HuftLedger.SixBitSpace` | DuiLib/Utils/XUnzip.cpp:750 | with tables of six bits, n codes take at most 2n + 392 entries |
| `HuftSkip.SkipsIffGap` | DuiLib/Utils/XUnzip.cpp:1936-1951 | the check on the counts of the lengths holds exactly if some prefix that ends where a table ends has only codewords more than l bits longer |
| `HuftSkip.FewNeverSkip` | DuiLib/Utils/XUnzip.cpp:2057-2076 | a complete code of fewer than 2^(l + 1) symbols has no such prefix |
| `HuftSkip.TooLongSkips` | DuiLib/Utils/XUnzip.cpp:1940-1951 | a table of more than l bits is only opened under such a prefix |
| `HuftChain.FollowChain` | DuiLib/Utils/XUnzip.cpp:1961-1970 | if a table of more than l bits is open, the links lead some input to an entry of it that was never written |
| `HuftGap.Jams` | DuiLib/Utils/XUnzip.cpp:1961-1970 | if there is such a prefix and the space was new, the tables do not decode the code |
| `HuftLoop.MakeEntry` | DuiLib/Utils/XUnzip.cpp:1973-1986 | the entry for a symbol stands for its value, its base and extra bits, or an invalid code |
| `HuftLoop.FillTable` | DuiLib/Utils/XUnzip.cpp:1988-1991 | the entry goes to exactly the slots whose low bits are the code |
| `HuftLoop.BackUp` | DuiLib/Utils/XUnzip.cpp:1998-2005 | closes exactly the tables whose prefix is finished |
| `HuftTable.WalkCells` | DuiLib/Utils/XUnzip.cpp:1250-1274 | if every entry suits its prefix, walking the linked tables arrives at the right leaf on every input |
| `HuftTable.DecodesExtends` | DuiLib/Utils/XUnzip.cpp:2076-2077 | tables added behind do not change what earlier tables decode |
| `HuftBuild.Build` | DuiLib/Utils/XUnzip.cpp:1814-2012 | `Z_DATA_ERROR` exactly if over-subscribed; otherwise `Z_MEM_ERROR` exactly if the entries the lengths call for are not there, and `Z_BUF_ERROR` exactly if there is space and the code is incomplete and not a lone one-bit code; takes exactly those entries; on `Z_OK` (for the only-if: in new space) walking the tables gives on every input the symbol whose codeword it starts with, its length, and the bits asked for, if and only if no prefix has only codewords too long for the next table |
| `HuftBuild.RootEntries` | DuiLib/Utils/XUnzip.cpp:1953-1957 | the first table has 2^l entries, and is the only one if it takes whole codewords |
| `HuftExamples.NarrowTables` | DuiLib/Utils/XUnzip.cpp:1936-1971 | tables of one bit: wrong for the lengths 1, 3, 3, 3, 3 and ten entries, right for 1, 2, 3, 3 and six entries |
| `HuftExamples.ForkedEntries` | DuiLib/Utils/XUnzip.cpp:1936-1957 | their tables take 512 + 256 * 2^(g - 9) entries |
| `HuftExamples.OutOfSpace` | DuiLib/Utils/XUnzip.cpp:1953-1955 | codewords of 1 bit and of g bits only: `Z_DATA_ERROR` for g = 10, `Z_MEM_ERROR` for g from 11 to 15 |
| `InflateTrees.ShortestBound` | DuiLib/Utils/XUnzip.cpp:1877-1878 | a complete code with shortest codeword s has at least 2^s codewords, so first lookups stay within the bits asked for |
| `InflateTrees.BitSymbolFound` | DuiLib/Utils/XUnzip.cpp:1622-1626 | one lookup in the bit-length table gives the next bit-length symbol at every position of every input |
| `InflateTrees.LitSpace` | DuiLib/Utils/XUnzip.cpp:2057-2076 | the tables of a literal/length code take at most 922 entries and skip nothing |
| `InflateTrees.DistSpace` | DuiLib/Utils/XUnzip.cpp:2075-2077 | those of a distance code at most 452, so both fit in 1440 |
| `InflateTrees.TreesBits` | DuiLib/Utils/XUnzip.cpp:2015-2039 | accepts exactly the bit-length codes that are complete or a lone codeword, and builds a table for them; space never runs out |
| `InflateTrees.TreesDynamic` | DuiLib/Utils/XUnzip.cpp:2042-2099 | accepts exactly the pairs of codes a dynamic block may have, for which there is always space; both tables decode their codes; `Z_MEM_ERROR` exactly if the tables of the first code, or of both when the first is right, take more than 1440 entries and the code is not over-subscribed |
| `FixedTables.FixedTablesDecode` | DuiLib/Utils/XUnzip.cpp:922-1066 | the fixed tables, given by their generating function, decode the fixed codes |
| `FixedTables.FixedCode` | DuiLib/Utils/XUnzip.cpp:922-1066 | the fixed literal/length codewords are those of section 3.2.6 of RFC 1951: from 00110000, 110010000, 0000000 and 11000000 on |
| `FixedTables.FixedDistCode` | DuiLib/Utils/XUnzip.cpp:922-1066 | the fixed distance codewords are the five bits of the code itself |
| `FixedTables.LetterCodes` | DuiLib/Utils/XUnzip.cpp:1914-2007 | the codewords of the example in section 3.2.2 of RFC 1951 |
| `BitBuffer.TakeByte` | DuiLib/Utils/XUnzip.cpp:893-895 | taking a byte in loses no bit of the 32-bit word and keeps the buffer in step with the stream, even after bytes were given back |
| `BitBuffer.DumpBits` | DuiLib/Utils/XUnzip.cpp:896 | dropping bits moves the buffer on in the stream |
| `BitBuffer.GiveBack` | DuiLib/Utils/XUnzip.cpp:2130 | giving bytes back without masking leaves extra bits that agree with the stream |
| `BlockHeader.LengthFields` | DuiLib/Utils/XUnzip.cpp:1540-1547 | the stored-block check compares the complement of the high half with the low half |
| `BlockHeader.TableFields` | DuiLib/Utils/XUnzip.cpp:1571-1582 | the three table sizes are the three fields of the header |
| `BlockHeader.StoredSplit` | DuiLib/Utils/XUnzip.cpp:1557-1568 | copying a stored block in pieces comes to the same as copying it at once |
| `Window.PutByte` | DuiLib/Utils/XUnzip.cpp:903 | after a byte is written, the slot d back holds the d-th last byte for every d up to the window size |
| `Window.RegionIsRecent` | DuiLib/Utils/XUnzip.cpp:898-905 | the region from read to write is exactly the last bytes of the history |
| `Window.CopySource` | DuiLib/Utils/XUnzip.cpp:1325-1327 | the slot a copy starts from holds the byte at its distance, wherever the window wraps |
| `TableDecode.LitTables` | DuiLib/Utils/XUnzip.cpp:1250-1283 | with tables for the code, the entry reached does what the next literal/length symbol does |
| `TableDecode.DistTables` | DuiLib/Utils/XUnzip.cpp:1294-1316 | the same for distance symbols |
| `TableDecode.LitTablesGood` | DuiLib/Utils/XUnzip.cpp:1250-1283 | entries reached are literals below 256 or lengths up to 258, and lengths only occur if there are distance codes |
| `TableDecode.LinkStep` | DuiLib/Utils/XUnzip.cpp:1270-1274 | following a link moves the walk on by the bits of the link and keeps its outcome |
| `Deflate.RunKeepsOutcome` | DuiLib/Utils/XUnzip.cpp:2166-2273 | symbols decoded one after the other do not change what the stream stands for |
| `Deflate.CopiedTwice` | DuiLib/Utils/XUnzip.cpp:2203-2226 | an overlapping copy may be made in two parts |
| `Written.TokenRead` | DuiLib/Utils/XUnzip.cpp:1628-1656 | a plain length, 3 to 6 copies of the one before, 3 to 10 or 11 to 138 zeros: where the codeword and the extra bits of such a token stand, reading goes on behind them with those lengths added |
| `Written.TokensRead` | DuiLib/Utils/XUnzip.cpp:1616-1657 | lengths written as tokens are read as exactly the lengths the tokens expand to |
| `Written.TokensWritten` | DuiLib/Utils/XUnzip.cpp:1616-1657 | and whenever lengths are read, some tokens stand there that expand to them |
| `Written.OrderIs` | DuiLib/Utils/XUnzip.cpp:1384-1385 | the lengths of the bit-length code come in the order of section 3.2.7 of RFC 1951 |
| `Written.LengthTable` | DuiLib/Utils/XUnzip.cpp:1762-1768 | bases and extra bits of the length codes, by formula: four codes for each number of extra bits, 258 apart |
| `Written.DistanceTable` | DuiLib/Utils/XUnzip.cpp:1769-1776 | the same for distances: two codes for each number of extra bits |
| `Written.LengthsTile` | DuiLib/Utils/XUnzip.cpp:1762-1768 | the length codes tile the lengths from 3 to 258, with one more code for 258 |
| `Written.DistancesTile` | DuiLib/Utils/XUnzip.cpp:1769-1776 | the distance codes tile the distances from 1 to 32768 |
| `Written.CopiedIsPeriod` | DuiLib/Utils/XUnzip.cpp:1324-1337 | copying byte by byte repeats the last bytes of the output, over and over if the copy overlaps itself |
| `Written.ItemRead` | DuiLib/Utils/XUnzip.cpp:1247-1342 | where a literal or a copy is written, reading adds the byte, or that many bytes from that far back |
| `Written.ItemWritten` | DuiLib/Utils/XUnzip.cpp:1247-1342 | and whenever reading takes a symbol other than the end, an item is written there |
| `Written.UsableIff` | DuiLib/Utils/XUnzip.cpp:2042-2099 | the codes a dynamic block may have: Kraft sum one, or a lone codeword of one bit |
| `Written.HeaderRead` | DuiLib/Utils/XUnzip.cpp:1570-1686 | where the header of a dynamic block is written, reading finds its codes |
| `Written.BlockRead` | DuiLib/Utils/XUnzip.cpp:1493-1702 | where a block of any of the three types is written, reading adds its contents |
| `Written.BlockWritten` | DuiLib/Utils/XUnzip.cpp:1493-1702 | and whenever a block is read, one is written there |
| `Written.ReadIffWritten` | DuiLib/Utils/XUnzip.cpp:1477-1718 | the strict reading succeeds if and only if blocks are written in the stream as RFC 1951 has it, and its result is then their end and their contents |
| `Progress.CodesExtends` | DuiLib/Utils/XUnzip.cpp:1210-1365 | decoding symbols only appends output and ends strictly later |
| `Progress.BlocksExtends` | DuiLib/Utils/XUnzip.cpp:1477-1718 | decoding blocks only appends output and never goes back |
| `Readings.SymbolReadings` | DuiLib/Utils/XUnzip.cpp:1248-1251 | a lookup finds the symbol that reading bit by bit finds, or wants bits behind the end of the input and the codeword ends in the last byte |
| `Readings.ReadingsRelate` | DuiLib/Utils/XUnzip.cpp:1477-1718 | lookups give the outcome of reading bit by bit unless they run out of input; for a complete stream that only happens if it ends in the last byte of the input, and all output is out exactly if the symbol waited for is the end of the last block |
| `Distances.CopiedBehind` | DuiLib/Utils/XUnzip.cpp:1325-1337 | a copy from within the output does not depend on what the window held before |
| `Distances.PriorMatters` | DuiLib/Utils/XUnzip.cpp:1317-1337 | what the window held before a stream matters exactly if a copy reaches back beyond the first byte, where a strict reader of RFC 1951 refuses the stream; otherwise the outcomes agree |
| `LengthCode.FillsExactly` | DuiLib/Utils/XUnzip.cpp:1616-1657 | reading code lengths runs out of input, fails, or fills exactly the announced number of entries with lengths, across the boundary between the two codes |
| `LengthCode.RepeatCounts` | DuiLib/Utils/XUnzip.cpp:1634-1655 | a repeat code fills in 3 to 6 copies of the length before it, 3 to 10 zeros or 11 to 138 zeros, as the 2, 3 or 7 bits behind it say, and reading goes on behind them; an error without a length to repeat or beyond the announced number |
| `LengthCode.BitLengthSymbolsExact` | DuiLib/Utils/XUnzip.cpp:1622-1626 | the decoder's bit-length symbols are those of the code on every input if and only if the code is complete |
| `LengthCode.LoneZeroOdd` | DuiLib/Utils/XUnzip.cpp:1622-1626 | for the code with symbol 0 alone, of one bit, a one is read as symbol 0 although no codeword starts so |
| `Inflater.Inflater.NeedBits` | DuiLib/Utils/XUnzip.cpp:892-895 | reads bytes until there are enough bits, never beyond the available input, and keeps the position |
| `Inflater.Inflater.DumpBits` | DuiLib/Utils/XUnzip.cpp:896 | moves the position on |
| `Inflater.Inflater.Flush` | DuiLib/Utils/XUnzip.cpp:1072-1135 | delivers exactly a prefix of the pending bytes and stops only when nothing is pending or no room is left |
| `Inflater.Inflater.NeedOut` | DuiLib/Utils/XUnzip.cpp:898-902 | makes room in the window, or fails with the output space used up |
| `Inflater.Inflater.OutByte` | DuiLib/Utils/XUnzip.cpp:903 | appends a byte to the history |
| `Inflater.Inflater.StepStart` | DuiLib/Utils/XUnzip.cpp:1244-1246 | sets up the first lookup of a symbol |
| `Inflater.Inflater.LookUp` | DuiLib/Utils/XUnzip.cpp:1248-1251 | one lookup: a leaf that ends the walk or a link that goes on with it |
| `Inflater.Inflater.StepLen` | DuiLib/Utils/XUnzip.cpp:1247-1284 | one lookup of a literal/length code keeps the meaning |
| `Inflater.Inflater.StepLenExt` | DuiLib/Utils/XUnzip.cpp:1285-1293 | the extra bits of a length, likewise |
| `Inflater.Inflater.StepDist` | DuiLib/Utils/XUnzip.cpp:1294-1316 | one lookup of a distance code, likewise |
| `Inflater.Inflater.StepDistExt` | DuiLib/Utils/XUnzip.cpp:1317-1323 | the extra bits of a distance, likewise |
| `Inflater.Inflater.StepCopy` | DuiLib/Utils/XUnzip.cpp:1324-1337 | copies byte by byte round the window, may stop at any byte and resume |
| `Inflater.Inflater.StepLit` | DuiLib/Utils/XUnzip.cpp:1338-1342 | writes a literal |
| `Inflater.Inflater.StepWash` | DuiLib/Utils/XUnzip.cpp:1343-1354 | gives back a byte read too much without moving the position, and ends only when all is delivered |
| `Inflater.Inflater.FastWalk` | DuiLib/Utils/XUnzip.cpp:2179-2248 | with 15 bits in the buffer, walks to the leaf without any check |
| `Inflater.Inflater.FastCopy` | DuiLib/Utils/XUnzip.cpp:2203-2226 | the unchecked copy is the byte-by-byte copy and stays within the free space |
| `Inflater.Inflater.FastSymbol` | DuiLib/Utils/XUnzip.cpp:2166-2272 | one round, with 258 free bytes and 10 input bytes, does what the symbol does and reads and writes within bounds |
| `Inflater.Inflater.Ungrab` | DuiLib/Utils/XUnzip.cpp:2130 | gives back whole unused bytes, keeps the position |
| `Inflater.Inflater.InflateFast` | DuiLib/Utils/XUnzip.cpp:2137-2279 | the fast loop is a run of whole symbols: same output, same position, same kind of result as symbol by symbol |
| `Inflater.Inflater.InflateCodes` | DuiLib/Utils/XUnzip.cpp:1210-1365 | keeps the meaning of the state and stops only at the end of the block, at an error, or for lack of input or room |
| `Inflater.Inflater.StepType` | DuiLib/Utils/XUnzip.cpp:1493-1538 | a block header, for all four block types |
| `Inflater.Inflater.StepLens` | DuiLib/Utils/XUnzip.cpp:1539-1552 | the lengths of a stored block |
| `Inflater.Inflater.StepStored` | DuiLib/Utils/XUnzip.cpp:1553-1569 | copies as much of a stored block as there is input and room for |
| `Inflater.Inflater.StepTable` | DuiLib/Utils/XUnzip.cpp:1570-1591 | the table sizes of a dynamic block |
| `Inflater.Inflater.StepBtree` | DuiLib/Utils/XUnzip.cpp:1592-1614 | the bit-length code |
| `Inflater.Inflater.RepeatLength` | DuiLib/Utils/XUnzip.cpp:1634-1657 | a repeat code is taken whole or not at all, and writes nothing outside the announced range |
| `Inflater.Inflater.StepDtree` | DuiLib/Utils/XUnzip.cpp:1615-1686 | the code lengths and the tables of a dynamic block |
| `Inflater.Inflater.StepCodes` | DuiLib/Utils/XUnzip.cpp:1687-1702 | the symbols of a block, then the next block or the end |
| `Inflater.Inflater.StepDry` | DuiLib/Utils/XUnzip.cpp:1703-1707 | is done only when everything is delivered |
| `Inflater.Inflater.InflateBlocks` | DuiLib/Utils/XUnzip.cpp:1477-1718 | keeps the meaning over every suspension; stops only at the end, at an error, or for lack of input or room; the code lengths stay allocated exactly in the modes in which a reset frees them; `Z_MEM_ERROR` only for an invalid stream, and then they are freed but the mode stays |
| `Inflater.Inflater.Ahead` | DuiLib/Utils/XUnzip.cpp:1477-1718 | in every reachable state, what has been produced is a prefix of what the stream stands for |
| `Inflater.Inflater.StalledStarves` | DuiLib/Utils/XUnzip.cpp:892-895 | with all the input available, a wait for input means that the reference has no bits left for the next field or lookup |
| `Inflater.Inflater.Drive` | DuiLib/Utils/XUnzip.cpp:1477-1718 | for every schedule of input and output space, the output is a prefix of the one-shot decode; `Z_STREAM_END` comes only with all of it, `Z_DATA_ERROR` and `Z_MEM_ERROR` only for an invalid stream; with all the input and room enough the end, an error or a wait comes exactly if the one-shot decode ends, is invalid or runs out of bits |
| `Inflater.Inflater.constructor` | DuiLib/Utils/XUnzip.cpp:1431-1474 | a new decoder stands for the whole stream |
| `Runs.Decompress` | DuiLib/Utils/XUnzip.cpp:1431-1718 | a new decoder under any schedule: always a prefix of the output of the stream, which is what RFC 1951 makes of it whenever a strict reader finds no error; the right answer with `Z_STREAM_END` and errors; a stream written as blocks gives their contents and no error; with all input and room the end exactly if every lookup fits before the end of the input, for which one byte behind the stream is enough |
| `Runs.LateOutcome` | DuiLib/Utils/XUnzip.cpp:3643-3650 | a complete stream of four bytes for which the last lookup does not fit |
| `Runs.LateRun` | DuiLib/Utils/XUnzip.cpp:3696-3745 | driven with all of that stream and room to spare, the decoder delivers all twelve bytes and waits for more input |
| `LostOutput.LostOutcome` | DuiLib/Utils/XUnzip.cpp:3643-3650 | a complete stream of sixteen bytes with codes of its own, whose lengths use all three repeat codes, and for whose eighth literal the lookup does not fit |
| `LostOutput.LostRun` | DuiLib/Utils/XUnzip.cpp:3696-3745 | driven with all of it and room to spare, the decoder delivers seven zeros of nine and waits for more input |
| `Adler.NoOverflow` | DuiLib/Utils/XUnzip.cpp:2378-2379 | no sum of up to 5552 bytes overflows 32 bits, whatever two 16-bit sums it starts from |
| `Adler.LargestPrime` | DuiLib/Utils/XUnzip.cpp:2378 | the modulus is a prime number, and the largest below 2^16 |
| `Adler.RawCongruent` | DuiLib/Utils/XUnzip.cpp:2409-2410 | reducing once after a run comes to the same as after every byte |
| `Adler.Adler32` | DuiLib/Utils/XUnzip.cpp:2389-2413 | the unrolled loop with deferred reduction computes the per-byte checksum for every length and starting value |
| `Adler.ChecksumIsWeightedSum` | DuiLib/Utils/XUnzip.cpp:2382-2386 | the two sums are the total and the total weighted by distance from the end, as in section 8.2 of RFC 1950 |
| `Adler.ChecksumConcat` | DuiLib/Utils/XUnzip.cpp:2389-2413 | the checksum of pieces continued is the checksum of the whole |
| `Crc.TableStep` | DuiLib/Utils/XUnzip.cpp:2357 | one table lookup does the work of eight one-bit divisions |
| `CrcKnown.Polynomial` | DuiLib/Utils/XUnzip.cpp:2298-2299 | the constant is the 32-bit reversal of x^26 + x^23 + x^22 + x^16 + x^12 + x^11 + x^10 + x^8 + x^7 + x^5 + x^4 + x^2 + x + 1 |
| `CrcKnown.SecondEntry` | DuiLib/Utils/XUnzip.cpp:2299 | entry 1 of the table is 0x77073096 |
| `Crc.Ucrc32` | DuiLib/Utils/XUnzip.cpp:2357-2368 | the unrolled loop is the bit-by-bit reflected polynomial division |
| `Crc.Crc32Concat` | DuiLib/Utils/XUnzip.cpp:3739 | the CRC continued over pieces is the CRC of the whole |
| `CrcKnown.CheckValue` | DuiLib/Utils/XUnzip.cpp:2357-2368 | the CRC of "123456789" is 0xcbf43926 |
| `CrcKnown.CheckRun` | DuiLib/Utils/XUnzip.cpp:2357-2368 | and the unrolled loop gives it |
| `CentralDir.Seam` | DuiLib/Utils/XUnzip.cpp:3090-3098 | the overlap of the buffers misses no signature at the seam |
| `CentralDir.SearchCentralDir` | DuiLib/Utils/XUnzip.cpp:3077-3107 | the greatest positive offset of a signature in the last 65535 bytes, 0 exactly if there is none |
| `CentralDir.FindRecord` | DuiLib/Utils/XUnzip.cpp:3077-3107 | a record behind other data and before up to 65531 bytes without the first byte of a signature is found where it stands, and otherwise not |
| `Md5.MixBits` | HadSvc/CodeTool.cpp:71-85 | bit by bit, F takes y or z as x says, G takes x or y as z says, H is the parity, I is y against x or not z |
| `Md5.RotateMoves` | HadSvc/CodeTool.cpp:87-89 | rotating moves the low bits up and the high bits to the low end |
| `Md5.RoundOne` | HadSvc/CodeTool.cpp:155-171 | the sixteen unrolled operations are the round of section 3.4 of RFC 1321 |
| `Md5.RoundTwo` | HadSvc/CodeTool.cpp:173-189 | likewise |
| `Md5.RoundThree` | HadSvc/CodeTool.cpp:191-207 | likewise |
| `Md5.RoundFour` | HadSvc/CodeTool.cpp:209-225 | likewise |
| `Md5.Decode` | HadSvc/CodeTool.cpp:133-138 | bytes joined to words, low byte first |
| `Md5.Encode` | HadSvc/CodeTool.cpp:140-148 | words split into bytes, low byte first |
| `Md5.WordsOfBytes` | HadSvc/CodeTool.cpp:133-148 | decoding undoes encoding |
| `Md5Stream.CountStep` | HadSvc/CodeTool.cpp:241-244 | the two words of the counter hold eight times the length modulo 2^64, the carry found by comparing |
| `Md5Stream.Digester.Transform` | HadSvc/CodeTool.cpp:150-234 | adds one block to the state |
| `Md5Stream.Digester.Update` | HadSvc/CodeTool.cpp:236-269 | the state has taken in all whole blocks and the buffer holds the rest, however the data was cut |
| `Md5Stream.Digester.Finalize` | HadSvc/CodeTool.cpp:276-308 | the digest of the padded message; a second call changes nothing |
| `Md5Stream.DigestOf` | HadSvc/CodeTool.cpp:236-308 | for every way to cut a message into pieces, the digest is that of the message |
| `Md5Known.AbcDigest` | HadSvc/CodeTool.cpp:150-308 | the digest of "abc" is 900150983cd24fb0d6963f7d28e17f72, as in appendix A.5 of RFC 1321; so the sines, shifts, word orders and starting values are right |
| `Md5Known.DigestOfAbc` | HadSvc/CodeTool.cpp:236-308 | and the digester arrives at it, given "a" and "bc" |
| `Base64.AlphabetLetters` | HadSvc/CodeTool.cpp:28 | the 64 letters in the order of table 1 of RFC 4648, and the padding character |
| `Base64.EncodeBase64` | HadSvc/CodeTool.cpp:333-362 | the encoding of section 4 of RFC 4648: 24-bit groups as digits to base 64, with padding |
| `Base64.KnownEncodings` | HadSvc/CodeTool.cpp:333-362 | "foob" and "fooba" give "Zm9vYg==" and "Zm9vYmE=" |
| `Base64.DecodeBase64` | HadSvc/CodeTool.cpp:434-510 | fails exactly for a lone padding character after the first letter of a group; otherwise the bytes the letters complete |
| `Base64.PackSextets` | HadSvc/CodeTool.cpp:481-500 | joining the 6-bit values of any bytes gives the bytes back |
| `Base64.RoundTrip` | HadSvc/CodeTool.cpp:333-362 | decoding the encoding of any bytes gives them back, also with separators inserted anywhere |
| `Base64.EncodeThenDecode` | HadSvc/CodeTool.cpp:434-510 | the same, through the two loops |
| `Frames.WriteFrame` | HadSvc/DataHandler.cpp:446-472 | the frame is the length, the data and a zero byte; refused exactly if the length does not fit |
| `Frames.FrameBytes` | HadSvc/DataHandler.cpp:446-472 | the bytes of a frame: the length in four bytes, low byte first, the data, a zero; the limit is that the length of the whole frame fits 32 bits |
| `Frames.StreamRoundTrip` | HadSvc/DataHandler.cpp:446-472 | frames written one after the other read back as their payloads |
| `Pipeline.StepConserves` | HadSvc/DataHandler.cpp:904-930 | every step keeps each published event in exactly one of queue, hand, pipe buffer, writer, output, or drop |
| `Pipeline.StepKeepsLocks` | HadSvc/umsginterface.cpp:305-309 | a queue's mutex is held exactly by whoever is between push and SetEvent |
| `Pipeline.StepLosesNoWakeup` | HadSvc/umsginterface.cpp:319-341 | a non-empty queue has its event set, a worker in its drain loop, or a push about to set the event; likewise the pipe buffer |
| `Pipeline.StepDrops` | HadSvc/umsginterface.cpp:283-292 | no step drops an event other than one with an empty document or too large a frame |
| `Pipeline.NeverDropped` | HadSvc/DataHandler.cpp:446-458 | an event published only to queues that lead to the pipe, and not too large, is never dropped in any run |
| `Pipeline.StartInvariant` | HadSvc/DataHandler.cpp:997-1036 | the invariant holds at the start |
| `Pipeline.RunInvariant` | HadSvc/DataHandler.cpp:843-930 | the invariant holds after every interleaving of publishers, workers and writer: conservation, order of the pipe (first in, first out), locks, wakeups, drops |
| `Pipeline.QueueKeepsOrder` | HadSvc/DataHandler.cpp:904-930 | over any run, what the only worker of a queue has handed on, what it holds and what waits are what was put into the queue, in that order |
| `Pipeline.NeverStuck` | HadSvc/DataHandler.cpp:843-930 | as long as an event is under way, some step can be taken |
| `Pipeline.EverythingIsDelivered` | HadSvc/AnonymousPipe.cpp:55-62 | as long as nothing new is published and no wakeup is spurious, under every schedule the pipeline comes to rest after a bounded number of steps, and then every published event has been written as often as it was published, except for empty documents and too large frames |
| `PipeLists.InitializeList` | HadSvc/pipeManage.cpp:315-318 | a head alone is an empty circular list |
| `PipeLists.IsListEmpty` | HadSvc/pipeManage.cpp:320-323 | true exactly if there is no entry besides the head |
| `PipeLists.GetTail` | HadSvc/pipeManage.cpp:347-357 | the last entry |
| `PipeLists.InsertList` | HadSvc/pipeManage.cpp:325-335 | appends at the tail |
| `PipeLists.RemoveEntry` | HadSvc/pipeManage.cpp:337-345 | takes one entry out and keeps the others in order |
| `PipeLists.FindServer` | HadSvc/pipeManage.cpp:378-395 | the most recently inserted entry of that name, null exactly if there is none |
| `PipeLists.WalksAreReversed` | HadSvc/pipeManage.cpp:315-345 | forward and backward walks meet the same entries in opposite order and return to the head |
| `PipeLists.Replay` | HadSvc/pipeManage.cpp:315-345 | after any run of insertions and removals the forward walk meets what was inserted and not removed since, in order of insertion, and the backward walk the opposite |
| `PipeLists.ServerStop` | HadSvc/pipeManage.cpp:210-258 | terminates with the list empty, having freed each server after its clients, last ones first |
| `PipeLists.FreedOnce` | HadSvc/pipeManage.cpp:210-258 | that frees every server and every client exactly once |
| `Layout.Measure` | DuiLib/Layout/UIHorizontalLayout.cpp:54-98 | the fixed total and the number of adjustable children |
| `Layout.Place` | DuiLib/Layout/UIHorizontalLayout.cpp:100-191 | places the children one after the other; the running totals give the last adjustable child what the others left; the extents are evenly shared (`Layout.EvenlyPlaced`) |
| `Layout.SetPos` | DuiLib/Layout/UIVerticalLayout.cpp:54-183 | both passes, for either axis; adjustable children whose limits do not bind get equal shares as large as whole numbers allow, the last one less than their number more; every child keeps its limits; the last ends where the extent needed does; if no limit binds the space available is used up exactly |
| `Layout.EvenlyPlaced` | DuiLib/Layout/UIHorizontalLayout.cpp:103 | with n adjustable children and spare space, each before the last that its limits leave alone gets e with n * e <= spare < n * (e + 1), and the last at least e and less than e + n |
| `Layout.LimitsKept` | DuiLib/Layout/UIHorizontalLayout.cpp:143-151 | every child lies within its limits, and has its fixed extent if they allow it |
| `Layout.TwoChildren` | DuiLib/Layout/UIHorizontalLayout.cpp:100-191 | two children share 100 as (0, 50) and (50, 100) |
| `Layout.Separated` | DuiLib/Layout/UIHorizontalLayout.cpp:159-189 | neighbours are separated by exactly their paddings and the gap |
| `Layout.LastAbsorbs` | DuiLib/Layout/UIHorizontalLayout.cpp:137-145 | the last adjustable child takes what is left within its limits, all rounding included |
| `Layout.Conservation` | DuiLib/Layout/UIHorizontalLayout.cpp:100-191 | if no limit binds, the extent needed is the larger of the space available and the fixed total, or the fixed total without adjustable children |
| `Registry.FirstMatch` | RuleEngineSvc/RegisterRuleAssist.cpp:302-316 | the first rule that matches both key and process |
| `Registry.AskedExactly` | RuleEngineSvc/RegisterRuleAssist.cpp:154-258 | on which permissions of a rule it depends whether an operation is covered: exactly those listed for it, each of which can make the difference |
| `Registry.Engine.HitEx` | RuleEngineSvc/RegisterRuleAssist.cpp:148-271 | whether the rule's permissions cover the operation, and what becomes of the object map |
| `Registry.Engine.Hit` | RuleEngineSvc/RegisterRuleAssist.cpp:273-332 | the verdict is decided by the first matching rule alone: a white list that grants nothing blocks every operation that rules control and one that grants all permissions lets each pass, a black list the opposite; no rule, another mode, a short name or a process without a path lets everything pass |
| `Registry.ListsDo` | RuleEngineSvc/RegisterRuleAssist.cpp:317-328 | what white and black lists come to, for the verdict of any state and event |
| `Registry.Compare` | RuleEngineSvc/RegisterRuleAssist.cpp:317-328 | of two engines whose rules differ in what they grant, the one whose deciding rule grants more passes, under a white list, whatever the other passes, and blocks, under a black list, whatever the other blocks |
| `Registry.OneRule` | RuleEngineSvc/RegisterRuleAssist.cpp:148-271 | an engine with one rule that has the key and the process anywhere in its lists and grants a single permission: exactly these pairs of operation and permission pass under a white list, and are blocked under a black list |
| `Registry.OneRight` | RuleEngineSvc/RegisterRuleAssist.cpp:199-218 | an engine with one white list that lets keys be opened and grants one thing more: exactly these access rights pass for an extended open |
| `Registry.NameBehind` | RuleEngineSvc/RegisterRuleAssist.cpp:21-31 | the process name is what follows the last backslash of the path |
| `Registry.TraceDecides` | RuleEngineSvc/RegisterRuleAssist.cpp:33-54 | after any trace the map holds for an object the path of its latest recording that was not forgotten since, and nothing else |
| `Registry.HeldPath` | RuleEngineSvc/RegisterRuleAssist.cpp:184-197 | every path held is that of the object's last successful open or create, which some rule covers for that process |
| `Registry.Replay` | RuleEngineSvc/RegisterRuleAssist.cpp:273-332 | the engine run over a trace gives those verdicts, each in the state the events before it left, and that map |

## Left out

- HuftBuild.Build: that the tables of a code with a skipped level do not decode it is shown for new space; entries left there by an earlier block could happen to be right.
- Inflater.Inflater.InflateBlocks: what a call or a reset after `Z_MEM_ERROR` would do with the freed code lengths is not modelled; the contract says that they are freed and in which mode.
- Inflater.Inflater.Drive: the input is one contiguous sequence with a cursor. A caller that replaces its buffer while the decoder may still step back into the old one is not modelled.
- The local copies of cursors and bit buffer that the macros LOAD and UPDATE keep are the fields themselves; the variable m is recomputed from the cursors.
- The contents of the arrays that are local to `huft_build`, and of `x[16]` in MD5, are sequences.
- Allocation failures other than the 1440 table entries, messages, trace output and counters of totals.
- The zlib header, dictionary and check modes of `inflate`, its reset, and the optional check function of the window: never active with `nowrap`.
- The literal data of `fixed_tl`, `fixed_td` and `crc_table`: defined by what they must contain.
- The loop of `unzReadCurrentFile` and the rest of the ZIP reader: file calls around the parts modelled here.
- File sizes of 2 GB and more in the directory search, and read errors.
- Negative characters (outside ASCII) in Base64 text, which index before the start of the decode table; and `DecodeBase64` with a string result.
- The hexadecimal rendering of the MD5 digest.
- Shutdown, missing subscribers and exceptions in the pipeline; the content of events, JSON and protobuf. Whether an event's document is empty is a given of the event.
- Locks, threads and handles in the pipe server; an entry is its own record, so CONTAINING_RECORD is the identity.
- The other axis of the layouts, scroll bars, floating children, and estimates that depend on the space offered.
- Parsing the registry rules; negative permission values; locking of the object map.
