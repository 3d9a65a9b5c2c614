# Verified model of the decoders and engines

The repository decodes a compressed stream once, keeps snapshots of the decoder on the way ("checkpoints"), and
later serves any range of the unpacked data by restoring the nearest snapshot and decoding on from there. This
project models the parts written in the repository that make this exact, and proves what they promise:

- **Decoders.** BCJ2 with its range coder and the encoder its tests use; LZMA with its bit-at-a-time state machine,
  its fast path and its circular dictionary, against packets and an encoder of them; the branch converters for eight
  architectures, the Delta filter and the stage around them; the bit readers of the zstd decoder; the scanner and the
  bit shifter that let a bzip2 stream be entered at a block.
- **Engines.** The reader, the indexer, the checkpoint table, the thinning strategy and the chain of decompressors,
  over any decompressor that keeps a stated contract.
- **Archive parsers.** ar and cpio, which must read the same members however their input is cut.

## How the model is built

Code that changes state is modelled as classes with the same fields and as loops over the same arrays. Each such
method is proved against a function on values, and what the code promises is proved of the function:

| function | of |
|---|---|
| `Bcj2.Run`, `LzmaMachine.Step`, `ArParsing.Run`, `CpioParsing.Run` | one byte or bit at a time: the machine that every way of cutting the input must agree with |
| `ChainCodecs.Decode` | a call of a chain: a turn for each stage, again and again, until it has ended, is full or idle |
| `LzmaMachine.Whole` | the unbroken decode: that machine run until it needs input that does not exist, or is finished |
| `X86Branch.Convert`, `FilterStage.Whole`, `FilterStage.DeltaDecode` | a whole stream converted at once |
| `LzmaWindow.Copied` | `len` rounds of getting a byte and putting it |
| `StreamReaders.Slice` | the bytes of the data in a range |
| `BitReaders.Fold` | single bits, most significant first, zeros past the start |

What such a function says is pinned in turn by statements that do not use it, on bytes, bits and numbers alone:
`LzmaPackets` describes LZMA as packets, what they expand to and how they are coded, `X86Operands` and `BranchTargets`
what becomes of branch targets, the `Encodes` lemmas of `Bcj2` what is cut out of the data, and `CpioWriting`,
`ArWriting` and `ArBsdWriting` how archives are laid out.

Two predicates say what the engines are entitled to from a decompressor (`src/compress/decompressor.rs:24-62`).
`Decompressors.Lawful`: each step gives out the next bytes of the data, takes in no more than it is given, ends only
at the data's end, and a saved state stands where it says. `Decompressors.Unfailing`: on this stream the codec
neither fails nor stands still, its own checkpoints load, and asking for one is not an error. Correctness of the bytes
needs the first only; that an engine ends without an error needs the second too. `StoredCodec`, `LzmaCodec` and
`ChainCodecs` show when both are met: by every stored stream, by the LZMA streams that end and have a dictionary of at
most 2 GiB, and by every chain of streams that meet them.

How input is cut and how much room there is for output are parameters everywhere (`takes`, `rooms`, `room`): any
functions with positive values.

One file is one module. `Arithmetic`, `Powers`, `Sequences`, `Bytes`, `ByteBits`, `Digits` and `Wrappers` hold what
the others share. `dafny verify dfyconfig.toml` checks all of them.

## Model

| member | source | states |
|---|---|---|
| RangeCoding.EstimatesAre | src/compress/lzma/range_coder.rs:103-132 | In numbers: an estimate counts of 2048 how likely a 0 is, starts at half, and moves by a 32nd of the way, rounded down, up on a 0 and down on a 1; the part of the range for a 0 is in proportion to it |
| RangeCoding.ChoiceIs | src/compress/lzma/range_coder.rs:118-131 | A code in the lower part of the range, in proportion to the estimate, is a 0, any other a 1 |
| RangeCoding.DecodeTracks | src/compress/bcj2.rs:92-114 | Decoding the next choice of any stream gives the bit that was coded, whatever was coded before it and comes after |
| RangeCoding.DecodeDirectTracks | src/compress/lzma/range_coder.rs:134-157 | Likewise for a bit coded without an estimate, with the borrow and mask arithmetic of the source; the code then lies below the range, so a stream from an encoder is never flagged as corrupt |
| RangeEncoding.RangeEncoder.Encode | src/compress/bcj2.rs:272-287 | Carry and held-back bytes included, coding a bit narrows the interval that all output so far stands for, as exact arithmetic on one long number would, and moves the estimate as the decoder will |
| RangeEncoding.RangeEncoder.Finish | src/compress/bcj2.rs:288-297 | The finished stream, read as one number, is the low end of the final interval, so no carry was lost |
| Bcj2.Encode | src/compress/bcj2.rs:298-347 | The encoder's four streams are the ones the round trip and the next four rows are about: main, call and jump bytes, and the range coder's stream of the choices |
| Bcj2.EncodesMain | src/compress/bcj2.rs:298-347 | On the bytes of the data: main holds every byte but the operands cut out, which are the four bytes after an E8, an E9, or an 80 to 8F after 0F, if it is chosen and has them |
| Bcj2.EncodesTargets | src/compress/bcj2.rs:298-347 | On the bytes of the data: the operands of E8s cut out make up the call stream and the others the jump stream, in order, each big-endian and plus the position of the instruction after it |
| Bcj2.EncodesChoices | src/compress/bcj2.rs:155-164 | There is one choice for every such branch left in main, in order, which says whether its operand was cut out |
| Bcj2.ContextsAre | src/compress/bcj2.rs:155-160 | Two choices share an estimate exactly if both are of 80 to 8F, both of E9, or both of E8 after the same byte |
| Bcj2.Bcj2Decompressor.Decompress | src/compress/bcj2.rs:139-184 | Output then pending bytes are what the machine makes of the input consumed; a call stops only for want of room or input; it fails exactly with an error the machine meets; it ends when the end was signalled and nothing is pending |
| Bcj2.Bcj2Decompressor.Restore | src/compress/bcj2.rs:202-228 | A snapshot of a stage is taken over exactly if it suits the side streams, one of the start exactly if they open, one of another codec never; a refusal changes nothing |
| Bcj2.SaveAndRestore | src/compress/bcj2.rs:186-228 | A stage restored from a snapshot has the decoder state, pending bytes and end flag of the one it was taken of |
| Bcj2.RoundTrip | src/compress/bcj2.rs:235-347 | For every byte string and every choice of which markers to convert, decoding the encoder's streams succeeds, so no side stream runs dry, and gives the string back |
| Bcj2.DecodeChunked | src/compress/bcj2.rs:139-229 | However input and output are cut, and through snapshots restored between any calls, the result, output or error, is that of the whole main stream taken byte by byte |
| Bcj2.RoundTripChunked | src/compress/bcj2.rs:378-450 | Encoding and decoding in pieces of any sizes, through any snapshots, returns the data, for every data and every choice of markers |
| X86Branch.MoveOperand | src/compress/filter.rs:258-301 | The inner loop runs at most twice, and ends with the operand moved by the position under the guard the mask implies, given that the byte the mask points at was neither 00 nor FF |
| X86Branch.X86 | src/compress/filter.rs:242-303 | One call in place, with the mask and the position of the last marker modulo 2^32 carried from the call before, converts the same prefix as the conversion of the stream does, leaves the rest alone and carries the mask on, wherever in the stream it is, past 4 GiB too: the clamp at the start changes nothing and leaves the marker near enough for the next call |
| X86Branch.ConvertInverts | src/compress/filter.rs:540-601 | From every mask that is true of the bytes ahead, decoding undoes encoding, although the decoder looks at bytes a later conversion may have rewritten |
| X86Branch.RoundTrip | src/compress/filter.rs:242-303 | For every byte string the decoding conversion undoes the encoding one from a fresh mask |
| X86Branch.RoundTripInPlace | src/compress/filter.rs:661-673 | On every array under 4 GiB, running the encoder in place and then the decoder in place restores every byte |
| X86Operands.NoneConverts | src/compress/filter.rs:242-303 | A stream with no E8 or E9 that has four bytes behind it is left as it is |
| X86Operands.FirstConverts | src/compress/filter.rs:258-301 | On the bytes: the first branch of a stream, if its operand ends in 00 or FF, gets an operand that is the one read, less the position of the next instruction (encoded: plus it) modulo 2^25, sign-extended from bit 24; all before it stays and what follows is converted as from a start |
| X86Operands.FirstStays | src/compress/filter.rs:258-301 | A first branch with any other operand stays, and if no branch is in the three bytes after it, what follows is converted as from a start |
| X86Operands.SecondConverts | src/compress/filter.rs:276-289 | A branch one to three bytes after such a one, with an operand ending in 00 or FF, gets its target, turned once more if its byte at the place of the first one's top byte came out as 00 or FF |
| X86Operands.MayConvertIff | src/compress/filter.rs:261-270 | The mask test lets a branch convert exactly if of the three bytes before it at most one is a branch that was left, and that one's operand does not end in 00 or FF |
| BranchWords.ArmInverts | src/compress/filter.rs:305-319 | For every word at an aligned address the ARM step undoes the encoder's step: it touches the same words and their 24-bit targets wrap the same way |
| BranchWords.ThumbInverts | src/compress/filter.rs:321-344 | For every matching pair of halfwords the encoded pair matches again and is decoded to the original |
| BranchWords.PowerPcInverts | src/compress/filter.rs:346-364 | For every word at an aligned address the PowerPC step undoes the encoder's, opcode and link bits included |
| BranchWords.SparcInverts | src/compress/filter.rs:366-390 | For every word at an aligned address the SPARC step undoes the encoder's: an encoded target has the sign extension that decoding tests for |
| BranchWords.SignBitsAre | src/compress/filter.rs:378-381 | The sign extension that the model writes as a choice is the source's arithmetic on the converted SPARC target |
| BranchWords.SignPartIs | src/compress/filter.rs:453-458 | Likewise for the ADRP page |
| BranchWords.Arm64Inverts | src/compress/filter.rs:433-464 | For every word and address the ARM64 step undoes the encoder's, for BL and for ADRP with its range test |
| Ia64.ConvertInverts | src/compress/filter.rs:392-431 | For every 16-byte bundle, converting its three 41-bit slots is undone, slot by slot, without one slot disturbing its neighbours |
| RiscV.ConvertInverts | src/compress/filter.rs:466-533 | For every pair of words, of AUIPC pairs, special AUIPCs and JALs alike, decoding takes as many bytes as encoding did and gives them back, even when what follows the bytes written was itself rewritten |
| BranchTargets.ArmMeans | src/compress/filter.rs:305-319 | Read off the bytes: decoding leaves every word but BL, and a BL with the target it had less the address two instructions on, modulo 2^26 |
| BranchTargets.ThumbWindow | src/compress/filter.rs:321-344 | A pair of halfwords F0 to F7 and F8 to FF is decoded as a whole, to such a pair with its 23-bit target less the address of the next instruction; else one halfword is passed over |
| BranchTargets.PowerPcMeans | src/compress/filter.rs:346-364 | Exactly the relative branches with link change, to their 26-bit target less their own address |
| BranchTargets.SparcMeans | src/compress/filter.rs:366-390 | Exactly the CALLs whose upper displacement bits are alike change, stay such, and get their target less their own address modulo 2^25 |
| BranchTargets.BlMeans | src/compress/filter.rs:433-446 | BL gets its 26-bit word target less the address in words |
| BranchTargets.AdrpMeans | src/compress/filter.rs:447-461 | ADRP of a page within 512 MiB keeps its register and gets its page less that of its address, modulo 2^18 |
| BranchTargets.OthersStay | src/compress/filter.rs:433-464 | Every other ARM64 instruction stays |
| BranchTargets.TemplatesAre | src/compress/filter.rs:392-403 | The slots looked at are those of the templates with branch units: of MIB, MMB and MFB the last, of MBB the last two, of BBB all |
| BranchTargets.Slot2Lies | src/compress/filter.rs:404-412 | The last slot is bits 87 to 127 of the bundle as one number; `Slot0Lies` and `Slot1Lies` say the same of bits 5 to 45 and 46 to 86 |
| BranchTargets.SlotMeans | src/compress/filter.rs:413-425 | A branch in a slot gets its 25-bit target less the bundle's address, and its other bits stay |
| Ia64.SlotsAre | src/compress/filter.rs:392-431 | A bundle converts slot by slot: each with a branch unit as if it were alone, the others and the template not at all |
| BranchTargets.JalWindow | src/compress/filter.rs:486-500 | Exactly a JAL that links by x1 or x5 changes: from bits 20 to 1 in order to its scrambled immediate, less its address; anything else but AUIPC is passed over by two bytes |
| BranchTargets.AuipcWindow | src/compress/filter.rs:501-529 | A mark, AUIPC of x2 that carries an instruction, becomes the pair that adds the big-endian target less the address, upper part rounded for the signed lower one; a pair that looks encoded is put back; all other AUIPCs are passed over, by four bytes or six |
| BranchConverters.SettleUndone | src/compress/filter.rs:305-533 | One decision of any of the seven is undone, whatever later decisions made of the bytes it only looked at |
| BranchConverters.EncodedUndone | src/compress/filter.rs:912-1015 | For each of the seven architectures, every stream and every aligned start, decoding the encoded stream gives the stream; encoding keeps its length |
| BranchConverters.ConverterIs | src/compress/filter.rs:98-133 | Each of the seven is a converter that decides from its window and position alone and always settles at least a byte, which is all the stage assumes of one |
| BranchTargets.PositionIs | src/compress/filter.rs:98-133 | The address given to a converter is the stream position modulo 2^32, as a number |
| BranchConverters.RoundTripChunked | src/compress/filter.rs:719-770 | A stage of any of the seven, fed an encoded stream in pieces of any sizes and through any snapshots, gives the plain stream |
| FilterStage.WindowRun | src/compress/filter.rs:305-533 | The in-place loop that the fixed-width and the variable-width converters share converts exactly the prefix it reports and leaves the tail it cannot decide |
| FilterStage.DeltaAt | src/compress/filter.rs:106-116 | For every distance, `out[i] = in[i] + out[i - distance]` mod 256 |
| FilterStage.DeltaRun | src/compress/filter.rs:106-116 | The 256-byte ring with its wrapping index does this for every distance from 1 to 256 |
| FilterStage.SettledSplit | src/compress/filter.rs:98-133 | What is settled now, then the rest converted from where that left off, is the whole conversion: nothing is decided before it can be |
| FilterStage.FilterDecompressor.Decompress | src/compress/filter.rs:145-170 | Each call keeps the promise of all output still to come: bytes written now, then what the rest will give, is what was due; it makes progress and ends exactly when all is out |
| FilterStage.FilterDecompressor.Restore | src/compress/filter.rs:191-231 | A snapshot of a stage is taken over exactly if its settled part fits, and then all output still to come is what that stage would give, whatever follows; one of the start resets to a fresh filter of the same kind; a refusal changes nothing |
| FilterStage.SaveAndRestore | src/compress/filter.rs:171-231 | A restored stage will emit what the saved one would, for every rest of the stream |
| FilterStage.DecodeChunked | src/compress/filter.rs:98-231 | For every converter, every cutting of input and output and snapshots restored between any calls, the stage gives the conversion of the whole stream, of any length, with its raw tail |
| FilterStage.X86RoundTripChunked | src/compress/filter.rs:661-702 | An x86 stage fed an encoded stream in pieces of any sizes and through any snapshots gives the plain stream, for every plain stream |
| LzmaMachine.FromByte | src/compress/lzma/decoder.rs:121-132 | A properties byte is accepted exactly below 225, and its three numbers, each in range, make the byte up again |
| LzmaMachine.StepLegal | src/compress/lzma/decoder.rs:757-1050 | Every step keeps the machine legal: estimates in 31..2017, repeated distances that were checked, lengths, tree symbols and slots in their ranges |
| LzmaMachine.IndexInTable | src/compress/lzma/decoder.rs:40-60 | In every legal state that decodes a bit, the index of its estimate lies in the table, for all allowed `lc`, `lp` and `pb` |
| LzmaMachine.StuckIsLast | src/compress/lzma/decoder.rs:672-1052 | If one run that was given only the start of a stream and one that was given all of it begin alike, and the second can go no further, then it comes after the first and its output extends the first's |
| LzmaMachine.BeginsWhole | src/compress/lzma/decoder.rs:672-1052 | Whatever of the stream was handed over, what has been decoded is a prefix of the unbroken decode; when the machine can go no further it has the unbroken decode's state and output |
| LzmaMachine.OutputsAgree | src/compress/lzma/decoder.rs:672-1052 | Of two runs given different prefixes of a stream, one's output is a prefix of the other's |
| LzmaMachine.NextBoundaryUnique | src/compress/lzma/decoder.rs:757-1050 | The state in which the next symbol starts, or decoding ends, is unique, so a method that is proved to reach it has no freedom left |
| LzmaDecoding.LzmaDecoder.DecodeBit | src/compress/lzma/range_coder.rs:86-132 | Decodes one bit, renormalising first, as one step of the machine; when a byte is missing nothing has changed |
| LzmaDecoding.LzmaDecoder.FastSymbol | src/compress/lzma/decoder.rs:1661-1968 | One iteration of the fast path leaves range coder, estimates, distances, state, window, counts and output as the resumable machine has them at the next symbol boundary, reading at most 64 and writing at most 273 bytes, all of them into the caller's buffer |
| LzmaDecoding.LzmaDecoder.DecodeFast | src/compress/lzma/decoder.rs:1661-1968 | However many symbols the fast loop runs, its state is one the machine reaches and a boundary of symbols, and its output is what the machine wrote |
| LzmaDecoding.LzmaDecoder.Decode | src/compress/lzma/decoder.rs:672-1052 | After every call the state is one the machine reaches on the stream; the counts say what was consumed and delivered; delivered then pending bytes are the machine's output; `NeedInput` comes only when the slice is used up, nothing is pending and the machine needs a byte |
| LzmaDecoding.SaveAndRestore | src/compress/lzma/mod.rs:210-247 | A restored decoder has the state the saved one had, pending output and position included; restoring fails exactly for dictionaries over 2 GiB |
| LzmaDecoding.DecodeChunked | src/compress/lzma/decoder.rs:672-1052 | For every stream, every cutting of input and output, and snapshots restored between any calls, the result is that of the unbroken decode, bytes and final verdict; only a snapshot of a dictionary over 2 GiB prevents it |
| LzmaPackets.RepeatedIs | src/compress/lzma/decoder.rs:248-257 | What a match stands for: that many bytes more, each equal to the one its distance before it, in that match or not |
| LzmaPackets.RecentReach | src/compress/lzma/decoder.rs:1229-1304 | The last four distances, kept latest first, reach neither behind the output nor out of the window, whatever packets came before |
| LzmaPackets.SlotsDiffer | src/compress/lzma/decoder.rs:40-68 | No two contexts of choices share a place in the table of estimates: kinds, states, positions, length trees, slots, the ten distance trees laid end to end, align bits, and the three planes of each kind of literal |
| LzmaPackets.ChoicesHave | src/compress/lzma/decoder.rs:40-68 | Every choice of a packed stream has a context in use, so a place in the table, for all allowed `lc`, `lp` and `pb` |
| LzmaEncoding.PacketOn | src/compress/lzma/decoder.rs:757-1050 | From between any two packets, the choices of the next take the machine between that and its successor: its window, distances and state are then those that the packets alone say, the state from the kinds of the last three |
| LzmaEncoding.Unpacks | src/compress/lzma/decoder.rs:672-1052 | For every list of packets and every stream that codes them, the unbroken decode writes exactly their expansion, cut at the declared size; it ends without a mark if that size is reached and else by the ending, which is the end mark, any other match from behind the window or the output, or a repetition of nothing; and it is not flagged as corrupt |
| LzmaPackets.MarkEnds | src/compress/lzma/decoder.rs:1026-1031 | The end mark, a match whose distance, less 1, is all ones, is such an ending after any packets, for every window |
| LzmaEncoding.BeyondIsAnEnd | src/compress/lzma/decoder.rs:1032-1036 | One literal and a match from two bytes back, packed and decoded in any pieces, give that byte and end as if marked |
| LzmaEncoding.EncodeEvents | src/compress/bcj2.rs:243-297 | Coding any choices one by one, with adaptive estimates or without, and flushing gives a stream of them |
| LzmaEncoding.RoundTripChunked | src/compress/lzma/decoder.rs:672-1052 | Packets of every kind, packed, handed to the decoder itself in pieces of any sizes and through snapshots, come out as their expansion |
| LzmaWindow.SlidingWindow.PutByte | src/compress/lzma/decoder.rs:226-236 | Puts a byte into the ring, the history it stands for and the pending output, and moves the cursor on with its wrap |
| LzmaWindow.SlidingWindow.GetByte | src/compress/lzma/decoder.rs:238-247 | The byte at a distance in the ring is the one that far back in the history |
| LzmaWindow.SlidingWindow.CheckDistance | src/compress/lzma/decoder.rs:388-396 | A distance is accepted exactly if the history reaches that far |
| LzmaWindow.SlidingWindow.CopyMatch | src/compress/lzma/decoder.rs:248-257 | Is `len` rounds of get then put, in ring, cursor, total and pending output |
| LzmaWindow.SlidingWindow.CopyMatchTo | src/compress/lzma/decoder.rs:288-386 | For every cursor, fill state, distance up to the window and length, the chunked copy leaves the same ring, cursor and total as those rounds and writes the same bytes, wraps, overlaps and short periods included; the rest of the output is untouched |
| LzmaWindow.SlidingWindow.PutSliceDirect | src/compress/lzma/decoder.rs:270-287 | Appending a slice, longer than the window or not, is putting its bytes one by one |
| LzmaWindow.SlidingWindow.DrainOutput | src/compress/lzma/decoder.rs:403-412 | Moves as much of the pending output as fits, in order, and keeps the rest |
| LzmaWindow.SaveAndRestore | src/compress/lzma/decoder.rs:166-210 | The relinearised window has the same history, reach and total as the live one, and these decide every later answer; it is refused exactly over 2 GiB |
| LzmaWindow.RestorableSizes | src/compress/lzma/lzma2.rs:117-126 | Of the sizes LZMA2 can ask for, exactly those of property bytes up to 38 can be restored |
| LzmaWindow.ThreeGiBIsLost | src/compress/lzma/decoder.rs:188-191 | Property byte 39 asks for 3 GiB, and the snapshot of that window, even an empty one, is refused |
| StreamIndexing.BestIsNearest | src/stream/index.rs:56-63 | The checkpoint looked up lies at or before the offset and none that does is nearer |
| StreamIndexing.StreamIndex.Validate | src/stream/index.rs:106-127 | A loaded table is accepted exactly if it is not empty, starts at offset 0 and is sorted, which is what looking up needs |
| StreamIndexing.StreamIndex.Thin | src/stream/index.rs:74-91 | Keeps every other checkpoint and the last, or with two only the first; says whether there was anything to drop |
| StreamIndexing.ThinnedKeeps | src/stream/index.rs:74-91 | Thinning keeps a chart of the stream: first checkpoint, order and genuineness; three or more keep the last too; two or more become fewer, so thinning ends |
| StreamIndexing.ThinnedSpaced | src/stream/index.rs:74-91 | If neighbours were less than a gap apart they are less than twice that apart afterwards |
| StreamIndexing.StreamIndex.CheckpointDataBytes | src/stream/index.rs:98-104 | Its total is the sum that the indexer keeps up to date one checkpoint at a time |
| CheckpointStrategies.Strategy.ShouldCheckpoint | src/engine/checkpoint_strategy.rs:342-346 | A thinning budget and a fixed interval ask for a checkpoint exactly when the distance from the last has reached the interval; a budget starts on first use and does not thin here; every answer is remembered with its position |
| CheckpointStrategies.Strategy.ShouldThin | src/engine/checkpoint_strategy.rs:347-355 | It asks for thinning exactly when the bytes held exceed the budget, and each time doubles the interval, saturating at 64 bits |
| CheckpointStrategies.Strategy.Start | src/engine/checkpoint_strategy.rs:330-340 | On an index that already has spacing, the interval doubles just as often as it takes not to be narrower than the mean spacing by the root of two, in exact arithmetic; a bare index or a later call leaves it |
| CheckpointStrategies.WideEnough | src/engine/checkpoint_strategy.rs:335-338 | For 64-bit offsets the doubling ends: no mean spacing is wider than the widest interval |
| StreamIndexers.StreamIndexer.TryCheckpoint | src/stream/indexer.rs:280-306 | Every attempt keeps the table a chart of genuine, strictly ascending checkpoints from 0, its byte count equal to their sum, and, on a fresh pass under a thinning budget, within the budget or down to the first checkpoint; gaps stay below the interval's bound; the thinning loop ends |
| StreamIndexers.Resume | src/stream/indexer.rs:79-104 | A complete index is refused; any other is taken up exactly if its last checkpoint loads, and then the indexer stands there, will ask for input from its packed offset, and will emit only what lies past what was indexed |
| StreamIndexers.StreamIndexer.Step | src/stream/indexer.rs:153-264 | Each request keeps the invariant, which says where checkpoints may and where they must have been laid; work never grows; output already offered is not lost; over an unfailing codec no step fails |
| StreamIndexers.RunPass | src/stream/indexer.rs:162-306 | For every start, stop and chunking, a pass that ends without error has emitted exactly the data from where the index ended before to where it ends now, the index charts the stream, and a fresh thinning pass is within its bounds: `m * 2^k` saturated is the interval and gaps are below `2^k * (m + B)`; over an unfailing codec there is no error. It lays no checkpoint below what was indexed unless it ends there, past its start; if any position can be saved it then does. So it never does with a stop at or past what was indexed, and always with one at least a step short of it and past its start. The strategy is asked after every step that gave new output, at most 64 KiB apart; where it says yes and any position can be saved, and nowhere else but at the end of a pass that stops, a checkpoint is laid. With a fixed interval, fresh or resumed, they are spaced as the next row says |
| StreamIndexers.Regularly | src/engine/checkpoint_strategy.rs:100-113 | At every point of a pass with a fixed interval over a codec that can be saved anywhere, from where output is new: neighbours are less than the interval and 64 KiB apart, and so is the end from the last |
| StoppedEarly.StopBelow | src/stream/indexer.rs:224-239 | A stored stream indexed to its half under a budget that keeps one checkpoint, then resumed and stopped after a byte, gets a checkpoint below what was indexed |
| StreamIndexers.IndexInPieces | src/stream/indexer.rs:79-306 | Any sequence of stops and resumes emits, piece after piece, the unpacked stream with nothing lost or repeated, and ends with a complete index of it |
| StreamReaders.StreamReader.constructor | src/stream/reader.rs:169-201 | A reader can be made from any sorted table whose checkpoint for the offset is the stream's, and starts from that one, which is at or before the offset with none nearer, even if the rest or the declared length date from before the stream was cut |
| StreamReaders.StreamReader.RequireFullRange | src/stream/reader.rs:200-205 | From then on the range counts as required, whatever length the index declares |
| StreamReaders.StreamReader.ReadOutput | src/stream/reader.rs:392-406 | Serves the bytes of the data that start at the position, as many as are held, belong to the range and fit, and moves the position by that much |
| StreamReaders.StreamReader.SeekForward | src/stream/reader.rs:239-289 | A seek is accepted exactly if it does not go behind the position, keeps the reader valid for the new range, and changes nothing otherwise |
| StreamReaders.StreamReader.Step | src/stream/reader.rs:291-361 | Every request keeps the reader valid; `Done` with a required range leaves nothing of it unserved; over a codec that neither fails nor refuses its own checkpoints the only failure is `TruncatedInput`, for a required range that the stream does not hold |
| StreamReaders.ReadRange | src/stream/reader.rs:291-536 | Over every run to the end of a range, what was served is that slice of the data, cut at its end; a required range is served in full or ends in an error, and if the stream is too short it always does; over a codec that neither fails nor refuses its own checkpoints it errs only then, and with `TruncatedInput` |
| StreamReaders.ExtractAll | src/stream/reader.rs:239-536 | One live reader serves any list of entries as the slices they are, and if they are in order, lie in a declared length and the codec neither fails nor refuses its own checkpoints, all of them without error |
| StreamReaders.ClampIsExact | src/stream/reader.rs:151-156 | Over a complete index, cutting a range to the declared length is cutting it where the data ends |
| RandomAccess.IndexAndExtract | src/stream/reader.rs:158-536 | Index in any pieces, then extract: every entry is its slice of the unpacked data, whichever checkpoints the reads started from; with an unfailing codec and entries in order this cannot fail |
| RandomAccess.ExtractStored | src/compress/none.rs:26-66 | For archives that are not compressed at all this holds with no assumption left but the order of the entries |
| RandomAccess.ExtractLzma | src/stream/reader.rs:158-536 | For LZMA streams, at whatever pace the calls go: every entry extracted is its slice of what the unbroken decode writes; if the stream ends, its dictionary is at most 2 GiB and the entries are in order, nothing fails |
| RandomAccess.ExtractFromChain | src/stream/reader.rs:158-536 | For chains of any decompressors that keep the contract: every entry extracted is its slice of what the last stage unpacks to, and nothing fails if no stage does and the entries are in order |
| LzmaCodec.StepMoved | src/compress/lzma/decoder.rs:757-1050 | A step of the machine depends on neither how much was read nor how much was written before: on the rest of a stream it is the step on the stream |
| LzmaCodec.LzmaIsLawful | src/compress/lzma/mod.rs:180-247 | Every LZMA stream, whole or cut off, keeps the whole contract, however far its calls go on once their output is full: each call gives the next bytes of the unbroken decode, and any state it reaches, pending output included, is saved where it stands |
| LzmaCodec.LivelyIfEnds | src/compress/lzma/mod.rs:188-207 | Calls never fail or stand still on exactly the streams that end; one cut off fails at its very end |
| LzmaCodec.ReloadsIfSmall | src/compress/lzma/mod.rs:227-247 | All its checkpoints can be restored if and only if the dictionary is at most 2 GiB |
| LzmaCodec.LzmaDecompressor.Decompress | src/compress/lzma/mod.rs:180-208 | Every call of the decoder itself, fast path included, is a call of that codec at some pace, in bytes, counts, status, error and next state; so it delivers the next bytes of the unbroken decode, ends exactly with them, and fails only without input where the stream breaks off |
| StoredCodec.StoredIsLawful | src/compress/none.rs:26-66 | The stored codec keeps the whole contract on every stream: lawful, unfailing, and saving anywhere, exactly where it stands |
| Decompressors.Decompressor.Decompress | src/compress/decompressor.rs:24-39 | A step gives out the next bytes of the data, at most as many as there is room for, and ends only with the data; a codec that is lively on the stream does not fail and moves or ends |
| Decompressors.Decompressor.Save | src/compress/decompressor.rs:40-55 | A checkpoint is genuine: restoring it stands at the offsets it carries, at or before the input consumed and exactly at the output given |
| Decompressors.Decompressor.Restore | src/compress/decompressor.rs:56-62 | Restoring a genuine checkpoint, or none, succeeds exactly if the codec can load its state, and puts the decoder at its offsets and in its state; otherwise the decoder is as it was |
| ChainDecompressors.NewChain | src/compress/chain.rs:25-39 | A chain is made exactly from two stages or more that agree on the streams between them, and stands at its start, in the state its codec starts from if the stages do |
| ChainDecompressors.ChainDecompressor.Decompress | src/compress/chain.rs:47-144 | Turn by turn in place, a call does what the codec of the chain does on its state, in output, counts, status, error and next state. So for every chunking the output is the next bytes of the last stage's data; if the stages neither fail nor stand still, nor does the chain, and it stops short only for want of input |
| ChainDecompressors.ChainDecompressor.Save | src/compress/chain.rs:146-179 | A chain's checkpoint is genuine and is what its codec saves: what is in flight on every link, which stages have ended, and each stage's own state, of all but the first exactly where it stands; if the stages can be saved so, the chain can |
| ChainDecompressors.ChainDecompressor.Restore | src/compress/chain.rs:181-215 | Restoring succeeds exactly for a checkpoint of as many stages, each of which can load its part, and then the chain is in the state that the checkpoint is of: links, ends, counts and stages |
| ChainDecompressors.SaveAndRestore | src/compress/chain.rs:146-215 | A chain restored from another's checkpoint has the same bytes in flight, ended stages, counts and output position; only what the first stage has taken in may lie behind |
| ChainDecompressors.DecodeChunked | src/compress/chain.rs:47-144 | From where it stands, fresh or restored, a chain of lively stages gives the rest of the last stage's data, without error, however its input is cut; so a restored chain goes on as the original would have |
| ChainCodecs.RunSound | src/compress/chain.rs:56-127 | One run of any stage keeps the chain in order: each link holds exactly what came out of one stage and has not gone into the next, each stage stands where its counts say, and no mark of an end is false |
| ChainCodecs.ChainIsLawful | src/compress/chain.rs:47-215 | A chain of any length, of lawful stages that agree on the streams between them, keeps the whole contract of a single decompressor: its calls give the next bytes of the last stage's data, and what it saves stands where it says |
| ChainCodecs.ChainIsUnfailing | src/compress/chain.rs:47-215 | If no stage fails or stands still, nor does the chain; if every stage can reload what it reaches, so can the chain; if none fails to save, nor does it; and it can be saved anywhere if its stages can, all but the first exactly |
| BitReaders.FoldIsWindow | src/compress/zstd_dec/bits.rs:162-182 | Folding bits one by one is taking a window of the stream read as one little-endian number |
| BitReaders.PeekIsFold | src/compress/zstd_dec/bits.rs:162-182 | One unaligned load with a shift and a mask, or near the start a shifted low part, is that fold, for every width up to 56 |
| BitReaders.NewBackward | src/compress/zstd_dec/bits.rs:124-145 | A reader is made exactly if the last byte holds a marker; the bits before the marker are the stream, and the two errors are told apart |
| BitReaders.BackwardBitReader.ReadBits | src/compress/zstd_dec/bits.rs:184-196 | Reads succeed exactly while enough bits remain, and then give the fold; a failed read moves nothing |
| BitReaders.BackwardBitReader.ReadBitsPadded | src/compress/zstd_dec/bits.rs:197-208 | A padded read gives the fold with zeros past the start |
| BitReaders.SeqBitReader.Refill | src/compress/zstd_dec/bits.rs:241-257 | One load tops the cache up to 56 bits of the stream, zeros past the start |
| BitReaders.SeqBitReader.Read | src/compress/zstd_dec/bits.rs:271-283 | A cached read of up to the allowance gives the fold of the bits at the position |
| BitReaders.SeqBitReader.PeekAt | src/compress/zstd_dec/bits.rs:286-291 | A peek gives the fold of the bits that far on, without moving |
| BitReaders.SeqBitReader.Consume | src/compress/zstd_dec/bits.rs:293-299 | Dropping peeked bits leaves the cache true of the stream from there |
| BitReaders.ReadBoth | src/compress/zstd_dec/bits.rs:121-311 | For every buffer and every sequence of widths up to 56, the cached reader and the simple one give the same values, which are the folds, the same overflow verdict and the same errors (RFC 8878, section 3.1.1.3.2) |
| Bzip2Boundary.MagicScanner.ScanByte | src/compress/bzip2.rs:58-88 | Finds the block magic at every bit position, across bytes and calls; the count and the recorded boundary are those of all bits fed since the start |
| Bzip2Boundary.MagicScanner.Feed | src/compress/bzip2.rs:90-100 | The boundary recorded is the latest in the data, stamped with the output so far; without one nothing changes |
| Bzip2Boundary.MagicScanner.TakeBoundary | src/compress/bzip2.rs:114-117 | Hands out what was recorded since the last time, which is then forgotten |
| Bzip2Boundary.MagicScanner.FindBoundaryPositions | src/compress/bzip2.rs:102-112 | Lists, without changing the scanner, the bytes at which feeding the same data would find a boundary |
| Bzip2Boundary.PredictsFeed | src/compress/bzip2.rs:90-112 | The last position listed is that of the boundary that feeding records, and nothing is listed exactly if nothing is recorded |
| Bzip2Boundary.BitShifter.Shift | src/compress/bzip2.rs:148-167 | However the input is cut, all output so far is all input so far with the first bits dropped, less a byte held back |
| Bzip2Boundary.BitShifter.Flush | src/compress/bzip2.rs:169-174 | After the flush the output is the input's bits from the offset on, padded with zeros to a byte |
| Bzip2Boundary.MagicsAre | src/compress/bzip2.rs:9-13 | The magics looked for are the bits of the bytes 31 41 59 26 53 59 and 17 72 45 38 50 90 |
| Bzip2Boundary.RealignedStarts | src/compress/bzip2.rs:34-44 | From every recorded boundary, bytes realigned so start with 31 41 59 26 53 59 |
| Bzip2Boundary.Realign | src/compress/bzip2.rs:148-174 | Shifting the stream from a recorded boundary, in pieces of any sizes, and flushing gives bytes that start with 31 41 59 26 53 59, as many as there were |
| ArParsing.ArParser.Feed | src/ar/parser.rs:331-343 | Each call takes bytes from the front of the data exactly as the byte machine does, and gives the entry they complete; it fails exactly if the machine fails on the data; it always makes progress |
| ArParsing.ParseChunked | src/ar/parser.rs:431-448 | However an archive is cut, entries, final state and error are those of the byte machine on the whole |
| ArWriting.LongNameBack | src/ar/parser.rs:203-223 | A long name comes back through the name table exactly if it holds no newline and no NUL |
| ArWriting.ShortNameBack | src/ar/parser.rs:164-199 | A short name comes back through its header exactly if it is not empty, does not start with a slash, and with a slash added does not look like a BSD or a symbol table name |
| ArWriting.HashOneIsRefused | src/ar/parser.rs:177-188 | A file called `#1` is not such a name: its header is refused |
| ArWriting.LongPathIsRefused | src/ar/parser.rs:133-138 | An archive of one file with a path of 64 MiB is refused for its name table |
| ArWriting.ArchiveParses | src/ar/parser.rs:390-412 | Of plain paths, the archive parses to exactly the entries of its members, or is refused exactly if its name table is over 64 MiB |
| ArWriting.CutMember | src/ar/parser.rs:348-364 | An archive that breaks off inside a member is complete exactly if nothing of that member is there, or nothing but its pad byte is missing |
| ArWriting.EntriesDescribe | src/ar/parser.rs:226-239 | Those entries have the files' names, sizes, owners, times and permission bits, and their offsets are where the files' bytes lie |
| ArWriting.RoundTripChunked | src/ar/parser.rs:95-322 | For every list of files and every cutting of the archive written from it, everything comes back if and only if all paths are plain and the name table fits |
| ArBsdWriting.AnnouncedBack | src/ar/parser.rs:177-188 | A header name of `#1/` and a number announces an inline name of that length, and is refused exactly if that is over 64 KiB or longer than the member |
| ArBsdWriting.RecordRun | src/ar/parser.rs:272-306 | What any BSD record does to a parser: one with a name leaves it behind the data and the pad byte of the whole, with an entry of the data's size and place unless the name is a symbol table's; one with a name of NULs, of nothing or of too much spoils the archive |
| ArBsdWriting.ReadsBackExactly | src/ar/parser.rs:414-430 | A BSD archive, with its symbol table, reads back, every file with its name, the size of its data alone and where that lies, if and only if no name is empty, ends in a NUL, begins like a symbol table's or is with its NULs over 64 KiB |
| ArBsdWriting.RoundTripChunked | src/ar/parser.rs:431-483 | The same however the archive is cut |
| ArWriting.LayoutIs | src/ar/parser.rs:373-412 | The GNU layout in bytes: the magic, 60-byte headers with spaces and their end marker, newlines behind odd data, slashes at the ends of names and of lines of the name table |
| ArBsdWriting.LayoutIs | src/ar/parser.rs:414-430 | The BSD layout in bytes: `#1/`, the header's end, the name and its NULs before the data, a newline behind what is odd together |
| CpioLinks.OutputConserves | src/cpio/parser.rs:101-131 | For every list of members, each comes out exactly once; one that comes out as a hard link names a member with data and the same device and inode that came out before it; one that could be a link stays a file exactly if no member with its inode has data |
| CpioOutput.OutputIs | src/cpio/parser.rs:101-131 | For every list of members, exactly what comes out and in which order, said of the list alone: each member in its turn; a regular file of several names with data brings itself and, the first of its inode, those without data that came before it, in their order, as links to it; later ones are links to the latest; the trailer brings those whose data never came, inode by inode |
| CpioParsing.CpioParser.Accounts | src/cpio/parser.rs:64-84 | At every point before the trailer, members read are entries delivered, pending and deferred |
| CpioParsing.CpioParser.Feed | src/cpio/parser.rs:534-548 | Each call takes bytes, or hands out one pending entry, exactly as the byte machine does; it fails exactly if the machine fails; it always makes progress until the archive has ended |
| CpioParsing.ParseChunked | src/cpio/parser.rs:953-972 | However an archive, newc or odc, is cut, the entries and the error are those of the byte machine on the whole |
| CpioParsing.ArchiveConserves | src/cpio/parser.rs:149-548 | For every archive that reaches its trailer, every member read comes out exactly once, in the order and with the links that conservation promises |
| CpioParsing.MagicsAre | src/cpio/parser.rs:165-207 | The magics are 070701, 070702 and 070707, and once an archive has begun with one only those of its kind are taken |
| CpioWriting.LayoutIs | src/cpio/header.rs:8-30 | The layouts in bytes: magics, headers of 110 and 76, zeros to multiples of four in newc alone, the trailer's name |
| CpioWriting.HeaderParses | src/cpio/header.rs:68-115 | Every header written in either layout, fields in hexadecimal or octal, is read back number by number |
| CpioWriting.RecordRun | src/cpio/parser.rs:199-525 | What any record does to a parser, whatever its name and kind: it is refused, ends the archive, or adds the member it describes, and leaves the parser exactly behind its padding |
| CpioWriting.MembersDescribe | src/cpio/parser.rs:271-302 | The members have the names, the kinds that the ranges of their modes say, modes, owners, times, inodes and link counts of the files; a symbolic link has its target, and of anything else the data offset is where its bytes lie |
| CpioWriting.ReadsBackExactly | src/cpio/parser.rs:582-680 | An archive reads back as the files it was written of if and only if each name ends in no NUL, is not the trailer's, and it and the target of a symbolic link are within the parser's limits |
| CpioWriting.TrailerNameEnds | src/cpio/parser.rs:268-281 | A file named like the trailer ends the archive, and nothing from it on is read |
| CpioWriting.RoundTripChunked | src/cpio/parser.rs:582-951 | However a newc or odc archive of such files is cut, parsing gives what the policy on hard links makes of them, and without hard links the files themselves in their order |

## Findings

What the code does that its callers or its documentation would not expect. The model follows the code.

- **Snapshots of dictionaries over 2 GiB cannot be restored.** `SlidingWindow` accepts up to `1 << 31` bytes when it
  is deserialised (`src/compress/lzma/decoder.rs:188-191`), but LZMA2 property bytes 39 and 40 ask for 3 GiB and
  4 GiB - 1 (`src/compress/lzma/lzma2.rs:117-126`), which decode and checkpoint without complaint. The exact
  condition is `RestorableSizes`, the input is in `ThreeGiBIsLost`, and `LzmaDecoding.SaveAndRestore` and
  `LzmaDecoding.DecodeChunked` carry it through to whole decodes.
- **A GNU ar member called `#1`, or with a path of at most 15 bytes that begins with `#1/`, is refused**, because its
  header name begins like a BSD name (`src/ar/parser.rs:177-188`). Of paths that short, those that begin with `/` or
  `__.SYMDEF` are passed over, but for `/` itself, whose bytes are taken for a name table; longer paths go through the
  name table, where a newline or a NUL cuts them short. `ArWriting.RoundTripChunked` is the exact condition on the
  whole list of files; `HashOneIsRefused` is the input.
- **A long-name table over 64 MiB is refused** (`src/ar/parser.rs:133-138`), so an archive with enough long names does
  not parse. `ArWriting.ArchiveParses` is the exact condition and `LongPathIsRefused` the input.
- **A cpio member named `TRAILER!!!` ends the archive** (`src/cpio/parser.rs:268-281`), whatever follows it.
  `CpioWriting.ReadsBackExactly` is the exact condition on the files and `TrailerNameEnds` the input.
- **A corrupt LZMA stream can end like a good one.** A match from further back than there is output, or than the window
  reaches, is taken for the end mark (`src/compress/lzma/decoder.rs:1032-1036`), and a repetition before any output for
  one too (`src/compress/lzma/decoder.rs:1167-1170`): the caller is told that the stream has ended, and nothing reads
  the flag that the range decoder keeps. A match ends the stream if and only if its distance, less 1, is not below the
  bytes written or the window's size; `LzmaEncoding.Unpacks` has both sides, and `LzmaEncoding.BeyondIsAnEnd` the
  input: a literal and a match from two bytes back.
- **A resumed pass can lay a checkpoint below the point it had already indexed.** The documentation of `resume`
  (`src/stream/indexer.rs:78`) says that output below `indexed_to` lays no checkpoints, but ending a pass at a stop
  tries one wherever decoding stands (`src/stream/indexer.rs:224-239`). `StreamIndexers.RunPass` has the condition: such
  a checkpoint is laid if and only if the pass ends past its start and below `indexed_to`, given that the codec can save
  there. A caller can rule it out with a stop at or past `indexed_to`, and is certain of it with one that lies past the
  last checkpoint and at least a step's output, 64 KiB, below. In between it depends on how much the decoder gives out
  at a time. `StoppedEarly.StopBelow` is the input. The bytes emitted and the chart of checkpoints are not affected.

## Left out

- LzmaDecoding: the copies of hot fields that `decode` and `decode_fast` keep in locals; the model works on the fields.
- LzmaDecoding: length and distance decoding state, and the five bytes that start the range coder, are part of the
  phase and not fields of their own.
- LZMA2 chunk framing, dictionary and property resets, and the `.xz` container; `RestorableSizes` uses only its sizes.
- CheckpointStrategies: the mean spacing of an index is compared in exact arithmetic where the code uses floating
  point; the two floating-point budgets are one strategy that may answer anything.
- CheckpointStrategies: the notice a strategy gets of a new checkpoint's size, which a thinning budget ignores.
- StreamIndexers: `emit_output` and the declared lengths are fixed when an indexer is made; progress figures are absent.
- StreamReaders.StreamReader.constructor: a chosen checkpoint that lies behind the end of a stream cut since it was
  indexed is not allowed; what a decoder restored there holds is not decoded from the stream as it is now.
- StreamReaders: decoding into a slice of a buffer is decoding into its front.
- Decompressors: a codec is its decoding function; the stored codec, LZMA and chains are shown to be instances, and
  the other decoders are proved on their own.
- LzmaCodec: how far a call goes on with its output full is any function of its state, input and room. Every call of
  the decoder has some such pace; that it is the same for equal calls is not stated.
- ChainDecompressors: the chain does not model cloning of checkpoints by reference.
- The checkpoints of the bzip2 decoder, which is foreign code but for the scanner and the shifter.
- Bzip2Boundary: the byte the shifter carries and its bit offset are numbers, and or-ing bits that do not overlap is
  adding; the decoder between the scanner and the shifter is foreign code.
- BitReaders: words are numbers with explicit truncation to 64 bits; the forward reader and zstd's tables, sequences
  and frames are absent.
- ArParsing and CpioParsing: names are byte strings, not converted to UTF-8; error texts and event types beyond those
  named are absent.
- LzmaEncoding: the repository has no LZMA encoder. This one takes packets as given and does not look for matches.
- LzmaEncoding.Unpacks: of a stream that was coded; bytes behind its end are not part of it.
- ArWriting and CpioWriting: numbers too long for their fields cannot be written in the formats.
- gzip, zstd and xz decoding, tar, AES, CRCs, the asynchronous and synchronous drivers, the engine that feeds parsers,
  the serialised byte formats of indexes, and the command line.
