# The fixed-point AAC decoder, modelled in Dafny

This project models the hard parts of the fixed-point AAC decoder in `codec/aacdecode` and proves what they are for.
The bit reader, the parsers, the windowing routines, the FFT passes, the gain control, the reverberation filters and
the stream buffers change their state step by step in C, and they are classes and methods with loops here; each is
proved against a plain specification. Tables are constants, and they are functions.

| file | models |
|---|---|
| `Fixed.dfy` | shifts, 32-bit words, `MULSHIFT32`, `CLZ` |
| `Bitstream.dfy` | the 32-bit cached bit reader, over the buffer as a plain bit sequence extended with zeros |
| `Huffman.dfy`, `HuffTables.dfy` | canonical Huffman decoding for any count vector, and the twelve codes of the decoder |
| `Spectrum.dfy`, `SpectrumBlocks.dfy` | the spectral unpackers as inverses of a printer written from subclause 4.6.3 of ISO/IEC 14496-3 |
| `PulseData.dfy` | pulse data (table 4.4.7), read and added to a long block |
| `Layout.dfy` | band tables, window groups, and which group and band owns each coefficient |
| `Noiseless.dfy` | window grouping, section data (table 4.4.25) and scalefactors (subclause 4.6.2) |
| `Power43.dfy` | the magnitude of a dequantized sample: tables, polynomial, scaling and clip |
| `Closeness.dfy`, `Polynomial43.dfy`, `DequantLaw.dfy` | the formula that magnitude stands for, and how close it comes |
| `NoiseScale.dfy` | the inverse square root and the energy normalization of a noise band |
| `Walks.dfy` | the M/S mask, and the walks of dequantization and noise substitution over that layout |
| `Reseat.dfy` | the cursor carried between parsing calls, and the reader each call seats at it |
| `ChannelStream.dfy` | a whole individual channel stream (table 4.4.24), from the cursor and back |
| `RawBlock.dfy` | the elements of a raw data block (table 4.4.3) and the loop over them |
| `Overlap.dfy`, `ShortBlocks.dfy`, `Imdct.dfy` | windowing and overlap-add (subclause 4.6.11), and runs of frames |
| `Aliasing.dfy` | what that is for: slopes that meet, and the signal back from its folded blocks |
| `Fft32.dfy`, `Fourier.dfy` | the 32-point FFT on 32-bit words, and how far it is from the Fourier sum over the reals |
| `SbrMath.dfy` | Newton reciprocal and integer square root |
| `Drc.dfy` | the 64 by 32 bit division and the dynamic range control |
| `Reverb.dfy` | comb and all-pass filters on circular buffers, and their chain |
| `Rings.dfy` | the input ring shared with the stream driver and the PCM ring shared with the DAC |
| `PsHuff.dfy` | the ten parametric stereo code trees and their decoder |

How the state is modelled:

- A pointer is an index into the memory it points to. The reader's position counts on past the end of its buffer, as
  the original's does, so claims about positions hold there too; claims about data read back printed bits.
- Round trips are stated on the method that parses: its ghost argument is what was printed, and the method promises to
  return it and to consume exactly the printed bits whenever those bits stand at the reader.
- The printed form of a channel is the order of the spectral data syntax: groups, bands, then the windows of the group.
- Interleaved PCM is a two-dimensional array, one row per sample; adding the channel count to a pointer moves down a row.
- In the FFT every machine word has the type `Word`, whose operations must stay in 32 bits; elsewhere 32-bit
  wrap-around is written out where the original can meet it.
- Driver and DAC have a turn between any two steps of the decoder, also within a copy; a script says what they do. The
  decoder knows their pointers as it last read them, and the script's end is the end of the stream or the stop signal.

What the proofs found in the code:

- The loop over sections does not end on a truncated stream: past the end every section is empty. It ends exactly when
  it does within the sections that can start in the buffer (`Noiseless.SectionLoopEnds`).
- The sample rate guard of the spectral decoders lets index 12 through, one past the offset tables; an index the guard
  passes is in range exactly below 12 (`SpectrumBlocks.LookupAfterGuard`). aac_latm.c:117-128 stores such an index,
  and the bound of the prediction flags is looked up with it before (`Noiseless.DecodeICSInfo`).
- The mask packer opens a new byte after every eighth bit, so it leaves the decoder's fifteen bytes exactly when there
  are 120 bits, which a legal pair can have (`MsMask.PackMask`, `RawBlock.FullMaskIsLegal`). The noise walk opens the
  same sixteenth byte, but tests no bit of it (`Pns.PNS`, `Pns.TestedIsPacked`).
- The assertion that pulses stay inside the coefficients stands behind the stores; a stream can take them outside, and
  does exactly when its start band or its last pulse is (`PulseData.AddPulses`).
- Without delay a reverberation filter feeds back what it put out one whole buffer earlier, and the initialization
  spares one frame of that: it starts from silence exactly under a condition on the gain and what is left there
  (`Reverb.SilentWithoutDelay`). The settings the code ships meet it; gain one half and a leftover of 2 do not
  (`Reverb.Chain.LeftoverEchoes`).
- The dynamic range control holds the peak of a block, the first of its loudest samples. The samples beside it are held
  exactly under a condition on the peak's size and the gains at the ends of the ramps (`Drc.BesideThePeak`), which a run
  violates (`Drc.PeakNeighbourRun`).
- A noise band without energy is left unscaled and does not count for the guard bits, because its samples must be zero,
  says the comment; they need only be below 16 (`NoiseScale.NoEnergy`).
- The polynomials of the dequantizer stand under a comment that gives their relative error as below one in 10^7; at the
  size 4239 it is above (`DequantLaw.BeyondTenMillionth`).
- The first block after the gain control is switched on is put out at the global gain up to its peak, and the gain then
  jumps to the peak's in one step; every other step is a slope and at most the remainder of a division
  (`Drc.FreshJump`, `Drc.NoJump`).
- The inverse square root misses by twice what its comment gives (`NoiseScale.AtOneHalf`).
- The ADTS profile is set to 1 whatever the header says, so the check after it refuses nothing
  (`Reseat.ProfileNeverRefused`).
- The dequantizer's last shift by 3 stays in a word because no size below 4096 comes closer than 2^19 to a power of two
  after its normalization (`Power43.HornerHigh`, `Power43.PowerFits`).
- The FFT's comment counts two guard bits lost under assumptions about the steps around it; without them the proved
  output bound is 6.33 times the input bound, which the three guard bits just hold.

## Model

| member | source | states |
|---|---|---|
| `Fixed.CLZ` | codec/aacdecode/assembly.h:706-724 | leading zeros of any 32-bit word by binary search: 32 for zero, 0 for a negative word, otherwise the exact power-of-two bracket of the word |
| `Bitstream.CacheTake` | codec/aacdecode/bitstream.c:137-159 | a left-justified cache word is the next n bits above the cache word of the rest: unused cache bits stay zero through any read |
| `Bitstream.CacheRead` | codec/aacdecode/bitstream.c:137-159 | reading n bits off a full or final cache yields the next n bits of the plain sequence, zero-extended at the end of the buffer, and leaves the cache word behind them |
| `Bitstream.BitReader.constructor` | codec/aacdecode/bitstream.c:60-67 | a new reader is valid, sees exactly nBytes bytes and stands at their first bit |
| `Bitstream.BitReader.RefillBitstreamCache` | codec/aacdecode/bitstream.c:84-119 | after a refill the cache is the next 32 bits, or all that is left, and the position is unchanged; a short tail leaves no bytes |
| `Bitstream.BitReader.GetBits` | codec/aacdecode/bitstream.c:137-159 | the value is the next nBits mod 32 bits of the plain sequence and the position advances by exactly that, also across refills and past the end |
| `Bitstream.BitReader.GetBitsNoAdvance` | codec/aacdecode/bitstream.c:177-205 | a peek is the same value, zero-extended at the buffer's end, and changes nothing |
| `Bitstream.BitReader.AdvanceBitstream` | codec/aacdecode/bitstream.c:221-230 | the position advances by exactly nBits mod 32, also past the end |
| `Bitstream.BitReader.CalcBitsUsed` | codec/aacdecode/bitstream.c:245-254 | the bits used are the plain position minus the start, whatever is cached |
| `Bitstream.BitReader.ByteAlignBitstream` | codec/aacdecode/bitstream.c:269-275 | the position moves to the next multiple of 8, by less than 8 |
| `Huffman.KraftIsNext` | codec/aacdecode/huffman.c:70-104 | the decoder's running code bound is the Kraft sum of the lengths passed, for any count vector |
| `Huffman.CodewordUnique` | codec/aacdecode/huffman.c:70-104 | a word starts with at most one codeword of a count vector: the code is prefix-free |
| `Huffman.CodewordExists` | codec/aacdecode/huffman.c:70-104 | with Kraft sum 1 every 32-bit word starts with a codeword |
| `Huffman.DecodeInvertsEncode` | codec/aacdecode/huffman.c:70-104 | whatever follows the codeword of s in the word, s and its length are what is found |
| `Huffman.DecodeHuffmanScalar` | codec/aacdecode/huffman.c:70-104 | for every complete code and every 32-bit word the loop ends within maxBits steps at the one symbol whose codeword the word starts with: the time-out is never taken |
| `HuffTables.SpecInfoValid` | codec/aacdecode/hufftabs.c:47-60 | all eleven spectral count vectors have Kraft sum 1, the table's size and no length past maxBits |
| `HuffTables.ScaleFactInfoValid` | codec/aacdecode/hufftabs.c:161-163 | the same of the scalefactor code |
| `HuffTables.SpecTableEntry` | codec/aacdecode/hufftabs.c:62-159 | the concatenated symbol table holds each codebook's table at its offset |
| `HuffTables.CoverSf` | codec/aacdecode/hufftabs.c:165-175 | every difference in [-60,60] has a scalefactor symbol |
| `HuffTables.Cover1` | codec/aacdecode/hufftabs.c:62-159 | every coefficient vector of codebook 1 (signed quads) has a symbol whose table entry packs that vector and its sign count |
| `HuffTables.Cover3` | codec/aacdecode/hufftabs.c:62-159 | every coefficient vector of codebook 3 (unsigned quads) has a symbol whose table entry packs that vector and its sign count |
| `HuffTables.Cover5` | codec/aacdecode/hufftabs.c:62-159 | every coefficient vector of codebook 5 (signed pairs) has a symbol whose table entry packs that vector and its sign count |
| `HuffTables.Cover9` | codec/aacdecode/hufftabs.c:62-159 | every coefficient vector of codebook 9 (unsigned pairs up to 12) has a symbol whose table entry packs that vector and its sign count |
| `HuffTables.Cover11` | codec/aacdecode/hufftabs.c:62-159 | every coefficient vector of codebook 11 (pairs with escape) has a symbol whose table entry packs that vector and its sign count |
| `Printing.ReadNumber` | codec/aacdecode/bitstream.c:137-159 | a printed number of n bits reads back |
| `Printing.CodewordFound` | codec/aacdecode/huffman.c:70-104 | a codeword printed in the stream is what is decoded from the peeked word, even with fewer than maxBits bits left |
| `Spectrum.UnpackQuad` | codec/aacdecode/huffman.c:163-191 | any quad of codebooks 1 to 4, printed with its sign bits, reads back, and exactly the printed bits are consumed |
| `Spectrum.UnpackPair` | codec/aacdecode/huffman.c:210-234 | the same for the pairs of codebooks 5 to 10 |
| `Spectrum.UnpackEsc` | codec/aacdecode/huffman.c:253-292 | the same for the pairs of codebook 11 with magnitudes to 8191: signs taken from the peeked word, escapes read after them |
| `Spectrum.ReadEscape` | codec/aacdecode/huffman.c:271-282 | an escape prefix and word of any magnitude from 16 to 8191 reads back; the unary loop ends on any stream |
| `SpectrumBlocks.UnpackZeros` | codec/aacdecode/huffman.c:136-145 | the section is zero, the rest unchanged |
| `SpectrumBlocks.UnpackSection` | codec/aacdecode/huffman.c:163-292 | any section of one codebook, printed, reads back at exactly its printed length; nothing outside it changes, whatever the bits |
| `SpectrumBlocks.DecodeSpectrumShort` | codec/aacdecode/huffman.c:389-442 | at any sample rate index: in group, band, window order every one of the 1024 coefficients is written exactly once, by the entry that owns it; printed coefficients read back whole; an index the guard refuses, or looks up outside the offset table, changes nothing here |
| `SpectrumBlocks.DecodeSpectrumLong` | codec/aacdecode/huffman.c:312-369 | the same for a long block, with the pulses added at the end: they leave the coefficients or the rate's band table exactly when it says so, and otherwise printed coefficients read back whole, raised by the pulses |
| `PulseData.AddPulses` | codec/aacdecode/huffman.c:354-366 | all pulses land on coefficients if and only if the start band is in the table and the last one does; then every coefficient is moved away from zero, a zero down, by the sum of the pulses that land on it |
| `PulseData.RaisedSize` | codec/aacdecode/huffman.c:361-364 | signs stay, zero counting as negative, and sizes add up |
| `PulseData.AppliedSize` | codec/aacdecode/huffman.c:354-366 | no coefficient grows by more than 60 |
| `PulseData.DecodePulseInfo` | codec/aacdecode/noiseless.c:250-260 | any printed pulses read back at exactly their length; what is read from any stream fits its fields |
| `SpectrumBlocks.LookupAfterGuard` | codec/aacdecode/huffman.c:326-332 | an index that passes the guard is looked up inside the 12-entry offset tables if and only if it is below 12; 12 passes |
| `Layout.TablesAbut` | codec/aacdecode/aactabs.c:81-102 | each rate's offset is the one before with the same table, or lies right behind that table |
| `Layout.ShortTables` | codec/aacdecode/aactabs.c:81-98 | every short band table runs from 0 to 128 in increasing multiples of 4, no band wider than 96 |
| `Layout.LongTables` | codec/aacdecode/aactabs.c:100-137 | every long band table runs from 0 to 1024 in increasing multiples of 4, no band wider than 96 |
| `Layout.Frame.BandOwner` | codec/aacdecode/huffman.c:389-442 | the coefficients of a band in one window of a group, and only those, have that group and band as owner |
| `Noiseless.GroupWindows` | codec/aacdecode/noiseless.c:71-86 | for every 7-bit mask the group lengths are positive and sum to 8, and a window opens a group exactly when its bit is clear |
| `Noiseless.DecodeICSInfo` | codec/aacdecode/noiseless.c:64-101 | every field is the plain bits at its place in the syntax, short and long, and the position is after the last; the flags' bound is looked up inside its twelve entries if and only if there are no flags or the rate has an entry |
| `Noiseless.ReadBooks` | codec/aacdecode/noiseless.c:121-149 | any codebook assignment, printed as escape-coded run lengths, parses back with exactly one entry per group and band |
| `Noiseless.SectionLoopEnds` | codec/aacdecode/noiseless.c:121-149 | the nested loops over groups and sections end if and only if they do within the sections that can start before the end of the buffer, and otherwise never; they end exactly when the parse is defined |
| `Noiseless.TruncatedNeverEnds` | codec/aacdecode/noiseless.c:129-146 | at or past the end of any buffer, with a band to fill, no number of sections completes a group |
| `Noiseless.ReadGroup` | codec/aacdecode/noiseless.c:126-148 | on any stream the sections of one group are left inside the array exactly when the parse is defined and fits |
| `Noiseless.ReadSectLen` | codec/aacdecode/noiseless.c:134-139 | the increments are summed while they are the escape value, and the loop ends on any stream |
| `Noiseless.DecodeSectionData` | codec/aacdecode/noiseless.c:121-149 | on any stream: the loops are left inside the array exactly when the section syntax is complete and its entries fit, and then entries and position are those of the syntax and the rest of the array is unchanged; otherwise the outcome says that the original does not come back or writes past the array |
| `Noiseless.DecodeOneScaleFactor` | codec/aacdecode/noiseless.c:162-173 | a printed difference in [-60,60] is read back at exactly its length |
| `Noiseless.DecodeScaleFactors` | codec/aacdecode/noiseless.c:197-236 | the three interleaved differential chains, with the 9-bit first noise energy, recover every codable scalefactor and consume exactly the printed bits |
| `MsMask.PackMask` | codec/aacdecode/decelmnt.c:116-131 | for every number of bands the packer stays inside its bytes if and only if they hold more than the bands; every bit up to there is the stream's, in order |
| `MsMask.FullMask` | codec/aacdecode/decelmnt.c:116-131 | with the fifteen bytes of the decoder and eight groups of fifteen bands it does not |
| `RawBlock.FullMaskIsLegal` | codec/aacdecode/decelmnt.c:112-131 | such a pair is legal: a channel of eight groups of fifteen bands, with its mask of 120 bits |
| `Dequant.OrBelow` | codec/aacdecode/dequant.c:349-364 | an or is below a power of two if and only if both words are |
| `Power43.HornerHigh` | codec/aacdecode/dequant.c:242-249 | above the square root of a half the polynomial stays in words, between 2 10^8 and 5.6 10^8, and below 2^29 unless its argument comes within 2^19 of 2^31 |
| `Power43.HornerLow` | codec/aacdecode/dequant.c:242-249 | below it the polynomial stays in words, between 2 10^8 and 3.6 10^8 |
| `Power43.PowerFits` | codec/aacdecode/dequant.c:233-250 | for every size from 64 to 16383, also those above 8191 that pulses make, the power with its factor stays in a word after the shift by 3 |
| `Power43.ScaledFits` | codec/aacdecode/dequant.c:259-273 | the shift to the left is clipped before it can leave 31 bits |
| `Power43.Magnitude` | codec/aacdecode/dequant.c:154-273 | a magnitude is never negative and at most 2^31 - 1, at every size and scalefactor; `DequantLaw.MagnitudeLaw` says how large it is |
| `Power43.ZeroStays` | codec/aacdecode/dequant.c:154-206 | a zero has magnitude zero at every scalefactor |
| `Power43.FourSteps` | codec/aacdecode/dequant.c:154-273 | at every size four steps of the scalefactor double the magnitude, but for the last bit, until it is clipped |
| `Power43.Cubes` | codec/aacdecode/dequant.c:141-143 | 1, 8 and 27, which take different branches, come out as exactly 1, 16 and 81 in the output format at scalefactor 100 |
| `DequantLaw.TableNear` | codec/aacdecode/dequant.c:60-88 | every entry of pow43_14 is the integer nearest the power 4/3 of its size times its quarter power of two, at the entry's binary places |
| `DequantLaw.SizeNear` | codec/aacdecode/dequant.c:90-104 | every entry of pow43 is the integer nearest the power 4/3 of its size at 23 binary places |
| `DequantLaw.QuarterNear` | codec/aacdecode/dequant.c:55-58 | every entry of pow14 is the integer nearest its quarter power of two at 30 binary places |
| `DequantLaw.FractionNear` | codec/aacdecode/dequant.c:119-126 | exponent and fraction of every normalization shift make the power 4/3 of the places moved up, to one part in 2^24 of the cube |
| `Polynomial43.ModelNear` | codec/aacdecode/dequant.c:109-117 | the cubic 81 + 108 t + 18 t^2 - 4 t^3 has the fourth power of 1 + t as its cube, to two parts in 2^24, up to a 32nd |
| `Polynomial43.FormCube` | codec/aacdecode/dequant.c:109-117 | a polynomial of degree four whose coefficients about a point are near that cubic's has the fourth power as its cube, to 42 parts in 2^24, up to a 32nd of the point away |
| `DequantLaw.HornerNear` | codec/aacdecode/dequant.c:109-117 | over every word in [2^30, 2^31), whichever of the two polynomials it takes and with the truncations of its evaluation, the cube of the result is the fourth power of the word to 48 parts in 2^24 |
| `DequantLaw.BeyondTenMillionth` | codec/aacdecode/dequant.c:113-117 | the size 4239 normalizes to a word at which the polynomial is more than one part in 10^7 too large |
| `DequantLaw.HornerIs` | codec/aacdecode/dequant.c:244-249 | the truncated evaluation is that polynomial cut off by less than two units, at every word below 2^31 |
| `DequantLaw.PowerNear` | codec/aacdecode/dequant.c:233-250 | for every size from 64 to 16383 the cube of the power, at the place its exponent says, is the fourth power of the size to 56 parts in 2^24 |
| `DequantLaw.UnscaledNear` | codec/aacdecode/dequant.c:204-257 | whichever of the four branches makes it, the twelfth power of the unscaled value is the sixteenth power of the size times three binary places per quarter step, to 300 parts in 2^24 |
| `DequantLaw.MagnitudeLaw` | codec/aacdecode/dequant.c:141-273 | for every size from 1 to 16383 and every scalefactor the magnitude is size^(4/3) 2^((scale - 100)/4 + 5), rounded down: its twelfth power passes the formula's by at most 300 parts in 2^24, the next integer's falls short of it by at most as much, unless the magnitude is clipped |
| `DequantLaw.Ordered` | codec/aacdecode/dequant.c:154-273 | at every scalefactor a larger coefficient comes out no smaller, across all branches and the clip |
| `Power43.Cache` | codec/aacdecode/dequant.c:170-196 | the four values computed once per block are those magnitudes, also where the shift is 32 or more |
| `Power43.Sample` | codec/aacdecode/dequant.c:204-273 | and so is what the branches for larger sizes compute |
| `Dequant.DequantBlock` | codec/aacdecode/dequant.c:146-288 | each sample up to 16383 becomes its signed magnitude, with the first four magnitudes cached, the others stay, and the returned mask has exactly the leading zeros common to the results |
| `DequantLaw.SamplesOrdered` | codec/aacdecode/dequant.c:276-284 | the dequantized sample never falls as its coefficient rises, through zero and the negative ones, and a coefficient's negative comes out as the negative |
| `Dequant.Dequantize` | codec/aacdecode/dequant.c:304-367 | in group, window, band order every coefficient up to 16383 becomes its signed magnitude, as `DequantLaw` has it, at the scalefactor of the entry that owns it; the flags are exact, and the guard-bit count is the largest that holds |
| `NoiseScale.OneStep` | codec/aacdecode/pns.c:121-125 | from any guess with r x^2 up to 5/2 a step ends at most 2^-21 above the root; below it the error is squared, up to the truncated parts |
| `NoiseScale.StepInWords` | codec/aacdecode/pns.c:121-125 | and every value of the step fits a word |
| `NoiseScale.RootNear` | codec/aacdecode/pns.c:111-134 | for every r in [1/4, 1] the result lies in (0, 2) and r x^2 in [1 - 1182 2^-20, 1 + 2^-21] |
| `NoiseScale.AtOneHalf` | codec/aacdecode/pns.c:108-109 | at r = 1/2 that bound is reached to its last unit, and the root is 427692 2^-29 too small, about twice the difference noted in the code |
| `NoiseScale.InvRootR` | codec/aacdecode/pns.c:111-134 | the loop computes that root |
| `NoiseScale.EnergyFits` | codec/aacdecode/pns.c:153-160 | the energy of a band of 16-bit samples is at most 2^22 a sample, so a band of 96 leaves the two leading zeros the normalization needs |
| `NoiseScale.NoEnergy` | codec/aacdecode/pns.c:162-164 | a band of 16-bit samples has no energy if and only if every sample is below 16 in magnitude |
| `NoiseScale.NormalEnergy` | codec/aacdecode/pns.c:179-181 | the even shift is between 0 and 28 and brings every energy into [2^28, 2^30) |
| `NoiseScale.MantissaRange` | codec/aacdecode/pns.c:184-188 | the mantissa is in [2^28, 2^30), for every energy and scalefactor |
| `NoiseScale.EnergyReached` | codec/aacdecode/pns.c:166-188 | a band of any energy is brought to the energy of its scalefactor: at most 2^-21 above it and, but for the truncation of the mantissa, 1182 2^-20 below, before an exponent outside [-31, 16] is cut off |
| `NoiseScale.SampleFits` | codec/aacdecode/pns.c:191-222 | a 16-bit sample shifted left by up to 16 stays in a word, and no scaled sample exceeds 2^29: nothing needs clipping |
| `NoiseScale.SampleIs` | codec/aacdecode/pns.c:191-213 | for exponents in [-31, 16] an output is sample times mantissa times 2^(exponent - 32), rounded down to a unit once |
| `NoiseScale.ExponentCut` | codec/aacdecode/pns.c:191-207 | beyond that the exponent is cut off at 16 and -31 |
| `NoiseScale.EnergyIs` | codec/aacdecode/pns.c:153-160 | the energy is the sum of the squares in units of 256, each rounded down |
| `NoiseScale.BandReaches` | codec/aacdecode/pns.c:153-213 | the energy of the samples put out is the one the scalefactor asks for: each sample off by the one unit of its rounding, it is reached but for 1183 2^-20 and passed by at most 2^-21 and what the measured energy misses of the squares |
| `NoiseScale.Normalize` | codec/aacdecode/pns.c:166-188 | the code computes that mantissa and exponent |
| `Pns.GenerateNoiseVector` | codec/aacdecode/pns.c:231-237 | the samples are the signed high halves of consecutive generator words, in [-2^15, 2^15), and the seed is the last word |
| `Pns.SeedUndone` | codec/aacdecode/pns.c:61-72 | a step of the generator is undone by the inverse of its multiplier: no two seeds lead to one |
| `Pns.SampleOfSeed` | codec/aacdecode/pns.c:231-237 | a sample is the seed, as a signed word, without its low half |
| `Pns.ScaleNoiseVector` | codec/aacdecode/pns.c:149-225 | every sample is scaled by its band's mantissa and exponent, which bring the band to its energy (`NoiseScale.BandReaches`), a band without energy stays, and the returned mask has exactly the leading zeros common to the scaled samples |
| `Pns.NextMaskBit` | codec/aacdecode/pns.c:342-347 | the running byte stays aligned with the band: its lowest bit is the mask bit of the next entry; the refill reads inside the mask if and only if the mask has a bit for that entry |
| `Pns.TestedIsPacked` | codec/aacdecode/pns.c:329-333 | with the mask as the packer leaves it, also a full one, the bit tested for a band is the bit of the stream |
| `Pns.Channel.NoiseRun` | codec/aacdecode/pns.c:319-340 | over one band the drawn samples are consecutive words of the generator, counted over all bands before it |
| `Pns.PNS` | codec/aacdecode/pns.c:272-361 | every noise coefficient ends as its entry's scaling of its band's noise, the others are untouched, channel 0 hands its unscaled noise on where both are noise, the seed counts the samples drawn, the early return is the walk's own result, the guard-bit count is the largest up to the old one that holds for the noise of bands with energy, and the mask is left if and only if its bytes are all in use |
| `Pns.GuardBits` | codec/aacdecode/pns.c:355-358 | that update of the count, from the mask of the whole walk |
| `Pns.KeptNoise` | codec/aacdecode/pns.c:319-339 | noise a channel keeps instead of drawing has 16 bits, as the scaling needs: channel 0 keeps none, and channel 1 only what it was handed |
| `Pns.SharedNoise` | codec/aacdecode/pns.c:319-339 | after both channels' walks every band tied by its packed M/S bit holds scalings of one and the same noise vector in both channels |
| `Reseat.Cursor.Seat` | codec/aacdecode/decelmnt.c:376-377 | the reader seated at the cursor sees exactly the bytes left and stands at the cursor's bit |
| `Reseat.Cursor.Unseat` | codec/aacdecode/decelmnt.c:415-424 | the end 8 buf + bitOffset + bitsAvail is conserved, the bit offset stays below 8, and the call fails exactly when the reader has passed the end |
| `Reseat.Cursor.Call` | codec/aacdecode/noiseless.c:464-491 | any parse through one seated reader reads the plain bits; a rejected parse leaves the cursor where it was |
| `Reseat.Cursor.DecodeNextElement` | codec/aacdecode/decelmnt.c:364-425 | the three-bit identifier and then the element's own parse, with the same conservation |
| `Reseat.Cursor.ByteAlign` | codec/aacdecode/aacdec.c:781-791 | the alignment after a raw data block never runs past the end |
| `Reseat.Cursor.ParseInParts` | codec/aacdecode/aacdec.c:497-525 | a parse cut anywhere into calls reads the same values at the same places as one uninterrupted reader, and fails exactly when a reader is given up past the end |
| `Reseat.Cursor.UnpackADTSHeader` | codec/aacdecode/filefmt.c:67-207 | in every build the fields are the plain bits of the header; an illegal or unsupported one leaves the cursor and the settings, a frame that is not whole the cursor; a good one moves the cursor over header, time stamp, checksum and alignment and takes rate, channels, blocks and length |
| `Reseat.ProfileNeverRefused` | codec/aacdecode/filefmt.c:150-164 | the checks on profile and channel configuration refuse nothing: a header is legal by its layer and rate alone |
| `Reseat.SettingsTaken` | codec/aacdecode/filefmt.c:172-192 | what a good header sets, by the places of its bits: frame length, blocks, channels unless they were deduced, and the rate, which is one of three halved every third index |
| `Reseat.HeaderReadsBack` | codec/aacdecode/filefmt.c:85-141 | any header, printed field by field in the order of the standard, with time stamp and checksum where they belong and whatever profile it carries, is read back whole at its length |
| `Reseat.ByteCount` | codec/aacdecode/decelmnt.c:376-376 | the byte count (bitsAvail + 7) >> 3 is the bytes left at every offset only because bitOffset + bitsAvail is a multiple of 8: with a skew it is right if and only if the offset has reached the skew |
| `ChannelStream.GroupingUnique` | codec/aacdecode/noiseless.c:71-86 | the mask determines the grouping: two sequences of positive lengths over eight windows that open groups at its clear bits are equal |
| `ChannelStream.ReadHeader` | codec/aacdecode/noiseless.c:64-101 | any legal window header, printed, is read back with its groups at exactly its length |
| `ChannelStream.EntriesFit` | codec/aacdecode/noiseless.c:197-236 | the 120 entries of the fixed arrays hold the entries of every legal channel, short or long |
| `ChannelStream.DecodeChannel` | codec/aacdecode/noiseless.c:399-431 | any legal channel (gain, own or shared header, codebooks, scalefactors, pulses, coefficients), printed, is read back whole, the coefficients with their pulses, and exactly the printed bits are consumed |
| `ChannelStream.CoefsFit` | codec/aacdecode/huffman.c:354-366 | what a legal channel ends up with, pulses included, is within what the dequantizer is proved for |
| `ChannelStream.DecodeNoiselessData` | codec/aacdecode/noiseless.c:450-497 | the same from the cursor and back: the end is conserved and the call fails exactly when the printed bits pass it |
| `RawBlock.PSInfo.DecodeChannelPairElement` | codec/aacdecode/decelmnt.c:88-135 | a printed pair's tag, shared window and M/S mask are read back into fifteen mask bytes, bit for bit, and it says whether the packer stayed inside them |
| `RawBlock.ReadFill` | codec/aacdecode/decelmnt.c:303-322 | any fill of up to 269 bytes, printed with its escaped count, is read back |
| `RawBlock.PSInfo.DecodeNextElement` | codec/aacdecode/decelmnt.c:364-425 | any printed element within the available bits leaves its identifier, tag and shared window in the decoder's fields, the cursor right behind it and the end where it was |
| `RawBlock.PSInfo.DecodeStreams` | codec/aacdecode/aacdec.c:519-525 | the streams of a pair, each through a reader of its own, are both in their channel's arrays afterwards; a shared header serves both |
| `RawBlock.PSInfo.GetADTSChannelMapping` | codec/aacdecode/filefmt.c:226-262 | from any printed sequence of single, LFE, pair and fill elements with its end, cut into one reader per element and stream, every channel is recovered in order, the channels are counted, and the cursor stands right behind the end; no channels are refused, and it says whether any mask was left |
| `Windowing.CLIPTOSHORT` | codec/aacdecode/assembly.h:683-693 | the sign-spreading clip is the clamp to 16 bits |
| `LongWindows.DecWindowOverlap` | codec/aacdecode/imdct.c:77-163 | in place and from both ends, every output is the rounded, clipped sum of old overlap and windowed first half, every overlap the windowed second half; other channels' samples stay |
| `LongWindows.DecWindowOverlapLongStart` | codec/aacdecode/imdct.c:190-272 | the same with the steep slope (448 ones, short window, 448 zeros) on the falling side, without its multiplications |
| `LongWindows.DecWindowOverlapLongStop` | codec/aacdecode/imdct.c:297-380 | the same with the steep slope on the rising side |
| `ShortBlocks.Call.SumStep` | codec/aacdecode/imdct.c:480-596 | block k adds its head where earlier blocks still ring and is alone with its tail beyond them |
| `ShortBlocks.DecWindowOverlapShort` | codec/aacdecode/imdct.c:405-608 | for every overlap and every coefficients: outputs are the rounded, clipped sum of old overlap and the eight blocks at 448 + 128 k, the overlap is exactly the part of that sum past sample 1023; no slot is overwritten before its last read |
| `Imdct.TwoBlocks` | codec/aacdecode/imdct.c:405-608 | at any sample at most two of the eight blocks meet |
| `Imdct.Channel.IMDCT` | codec/aacdecode/imdct.c:755-772 | for each window sequence and pair of shapes, output, overlap and remembered shape; which slopes those are is `Aliasing.SlopesMeet` |
| `Imdct.DecodeRun` | codec/aacdecode/imdct.c:636-775 | over every run of frames of any mix of sequences and shapes, each output is the previous frame's second half plus this one's first, and the overlap is the last frame's second half alone; what such a run restores is `Aliasing.RunRestores` |
| `Aliasing.SlopesMeet` | codec/aacdecode/imdct.c:755-772 | for every legal succession of the coded sequences 0 to 3 and every shape, the slope the first frame falls on and the one the next rises on are the same 1024 values, a short one placed at 448 |
| `Aliasing.Cancels` | codec/aacdecode/imdct.c:77-163 | where the squares of a slope and its mirror image add up to one, the mirror images in the two overlapped halves cancel and the sample remains, up to the truncation of the products |
| `Aliasing.BetweenBlocks` | codec/aacdecode/imdct.c:405-608 | between two short blocks of a frame the signal comes back |
| `Aliasing.Restores` | codec/aacdecode/imdct.c:636-775 | two frames that may follow each other, folded from one signal, restore it where they overlap |
| `Aliasing.RunRestores` | codec/aacdecode/imdct.c:636-775 | over every legal run of frames, of any mix of sequences and shapes, the output from the second frame on is the signal they were folded from, within 13 sixteenths of a unit, or clipped |
| `Imdct.RunFits` | codec/aacdecode/imdct.c:405-608 | with transform outputs up to 2^30 - 4 no accumulated sample leaves 32 bits |
| `Imdct.PartialBound` | codec/aacdecode/imdct.c:405-608 | every partial sum of the short-block routine has the bound of the final one |
| `Imdct.PartialFits` | codec/aacdecode/imdct.c:405-608 | so old overlap, blocks so far and rounding stay in 32 bits after any number of blocks |
| `Fft32.Dft4IsTransform` | codec/aacdecode/sbrfft.c:308-334 | the 4-point butterfly is the discrete Fourier transform of its inputs in natural order |
| `Fft32.BitReverse32` | codec/aacdecode/sbrfft.c:86-102 | the twelve swaps are the 5-bit reversal permutation |
| `Fft32.R8Group` | codec/aacdecode/sbrfft.c:132-250 | one group in the register schedule is the halved 8-point transform of the group, with every operation in 32 bits |
| `Fft32.R8FirstPass32` | codec/aacdecode/sbrfft.c:122-252 | the whole pass is four such transforms; outputs are below 4.83 times 2^28 |
| `Fft32.R8FirstPass` | codec/aacdecode/fft.c:266-350 | the readable pass computes exactly the same function |
| `Fft32.TwidBound` | codec/aacdecode/sbrfft.c:66-73 | for each twiddle pair the magnitudes of the parts sum to at most 0x5a82799a |
| `Fft32.ButterflyAt` | codec/aacdecode/sbrfft.c:280-338 | one radix-4 butterfly in place is the 4-point transform of a quartered sample and three twiddled ones, in 32 bits |
| `Fft32.R4Core32` | codec/aacdecode/sbrfft.c:272-340 | the whole pass, outputs below 6.33 times 2^28 |
| `Fft32.FFT32C` | codec/aacdecode/sbrfft.c:358-366 | for every input below 2^28 the three passes compose to the specified transform, and no intermediate or output leaves 32 bits |
| `Fourier.RootAbout` | codec/aacdecode/sbrfft.c:65-73 | the algebra of the first 32nd root of unity (a quarter turn after eight steps, in the octant below the real axis) fixes each of its powers to 4 units of 2^-40 |
| `Fourier.TwidNear` | codec/aacdecode/sbrfft.c:65-73 | every entry of the twiddle table is within 0.7 units of 2^30 times the power it stands for |
| `Fourier.FourierSplits` | codec/aacdecode/sbrfft.c:358-366 | over the reals the 32-point sum is the 4-point transform of the four residues' 8-point sums, each turned by its power of the root |
| `Fourier.BlockNear` | codec/aacdecode/sbrfft.c:122-252 | after the first pass every sample is within two units of half the 8-point sum of its residue |
| `Fourier.ProductNear` | codec/aacdecode/sbrfft.c:280-312 | a product with a twiddle factor is within 2.65 units of an eighth of the exact one |
| `Fourier.IsFourier` | codec/aacdecode/sbrfft.c:358-366 | for every input with three guard bits, every part of every output of the transform FFT32C computes is within 9.2 units of an eighth of the 32-point discrete Fourier transform |
| `SbrMath.ErrorSquares` | codec/aacdecode/sbrmath.c:96-99 | exactly, with rho and sigma the two truncated parts: a step squares the error up to those terms |
| `SbrMath.StepBound` | codec/aacdecode/sbrmath.c:95-100 | from each error bound to the next |
| `SbrMath.InvRNormalized` | codec/aacdecode/sbrmath.c:84-103 | for every Q31 r in [2^30, 2^31) nothing leaves 32 bits and after five steps |r x - 2^60| <= 2^36 |
| `SbrMath.FloorRoot` | codec/aacdecode/sbrmath.c:184-195 | the binary search ends at the exact floor square root, and every mid squared fits 32 bits |
| `SbrMath.SqrtFix` | codec/aacdecode/sbrmath.c:162-199 | for every input the result is the exact floor square root of the input normalized by an even shift into [2^29, 2^31), and fBitsOut accounts for that shift |
| `Division.Div64_32` | codec/aacdecode/drc.c:28-58 | for every 64-bit n and every base > 0 the quotient is floor(n / base), and nothing in the doubling loop leaves 64 bits |
| `Division.HalveStep` | codec/aacdecode/drc.c:47-55 | halving keeps n = res base + rem, b = base d and rem < 2 b; at d = 1 res is the quotient |
| `Drc.NeverOvershoots` | codec/aacdecode/drc.c:174-182 | a ramp with C's truncated slope stays between the two gains over its whole span |
| `Drc.PeakFits` | codec/aacdecode/drc.c:120-128 | at the limited gain or less the peak leaves with magnitude at most 32767 |
| `Drc.LimitLargest` | codec/aacdecode/drc.c:120-128 | the limited gain is the largest at which the peak stays within 32767, to the rounding of the division |
| `Drc.ScaledIs` | codec/aacdecode/drc.c:160-181 | a sample put out is the product with the gain over 2^28, rounded down |
| `Drc.BesideThePeak` | codec/aacdecode/drc.c:148-187 | for every measured state: every block whose first loudest sample is at this place and of this size leaves in 16 bits along the ramps if and only if a sample of that size fits at the last gain and, where samples come before the peak, one smaller fits at the first gain and at the one before the peak's |
| `Drc.HeldIff` | codec/aacdecode/drc.c:156-181 | all samples up to p fit 16 bits at a gain if and only if p times the gain is below 2^15 times the global gain |
| `Drc.HeldWhole` | codec/aacdecode/drc.c:148-187 | a block whose gain is no lower than those of the blocks around it is held whole, at 32767 |
| `Drc.PeakNeighbourRun` | codec/aacdecode/drc.c:94-224 | a run from a fresh start in which a sample beside the peak is put out below -2^15 |
| `Drc.GainsInRange` | codec/aacdecode/drc.c:148-187 | every gain along a block is positive and at most the global gain |
| `Drc.CarriedRamp` | codec/aacdecode/drc.c:174-185 | the carried n0gain and n0delta lead to the next peak without overshooting its gain, and arrive: at the peak they are short of it by less than the samples between the peaks |
| `Drc.NoJump` | codec/aacdecode/drc.c:148-187 | along a block no gain step is larger than the ramp's slope, but for the step at the peak, which takes up the remainder of the division |
| `Drc.NoJumpBetween` | codec/aacdecode/drc.c:148-187 | nor is the step from one block's last sample to the next block's first |
| `Drc.FreshJump` | codec/aacdecode/drc.c:200-217 | after a fresh start the gain stays the global one up to the first peak and then falls to that peak's gain in one step, which is within slope and remainder if and only if the peak comes first or the fall is smaller than the samples to the next peak can be |
| `Drc.DrcInfo.constructor` | codec/aacdecode/drc.c:73-85 | initial indices, control not yet active |
| `Drc.DrcInfo.FindPeak` | codec/aacdecode/drc.c:103-117 | the first of the loudest samples |
| `Drc.DrcInfo.MeasureChannel` | codec/aacdecode/drc.c:98-138 | the gain is the smaller of the peak's limit and the last gain plus a quarter of the global gain |
| `Drc.DrcInfo.AdjustRange` | codec/aacdecode/drc.c:148-187 | every sample is put out scaled by the carried ramp up to the block's peak and by the new ramp, which ends at the next peak's gain but for a remainder, from there |
| `Drc.DrcInfo.DRCData` | codec/aacdecode/drc.c:190-224 | one call in any state: gains, outputs, peak in 16 bits, the whole block in 16 bits when its gain is no lower than its neighbours', gain rise bounded, no gain step beyond slope and remainder unless freshly started, invariant kept for the next call |
| `Drc.Run` | codec/aacdecode/drc.c:190-224 | over every run of blocks each gain lies in (0, global gain], rises by at most a quarter of it, and each peak put out is in 16 bits |
| `Reverb.Filter.InitFilter` | codec/aacdecode/reverb.c:114-125 | the delay is the smaller of sr delaytime / 1000 and 3072, and fits beside a frame in the buffer |
| `Reverb.Filter.Run` | codec/aacdecode/reverb.c:287-333 | with any delay up to buffer minus frame, also below a frame, a call computes the next frame of the infinite recurrence; without delay the feedback of that recurrence is one whole buffer old |
| `Reverb.SilentWithoutDelay` | codec/aacdecode/reverb.c:214-278 | right after the clearing, which spares the current frame, a filter without delay answers every input as from silence if and only if each product of the gain with a value left there is, modulo 2^60, below 2^28 for a comb and zero for an all-pass |
| `Reverb.CombFeed` | codec/aacdecode/reverb.c:318-330 | a comb feeds a value back without effect on any sample if and only if its product with the gain, modulo 2^60, is below 2^28 |
| `Reverb.AllPassFeed` | codec/aacdecode/reverb.c:365-386 | an all-pass if and only if the product is a multiple of 2^60 |
| `Reverb.Filter.Span` | codec/aacdecode/reverb.c:338-389 | one of the two loops, comb or all-pass: each output is the recurrence's next, reading outputs the same loop wrote |
| `Reverb.Chain.InitReverbFilter` | codec/aacdecode/reverb.c:214-278 | for any delays and gains: after clearing all but the current frame the chain responds from silence, as long as nothing left in a frame is fed back by a filter without delay |
| `Reverb.Chain.LeftoverEchoes` | codec/aacdecode/reverb.c:214-278 | a chain set to no delay and gain one half with 2 left in its first comb's frame puts out 1 for silence |
| `Reverb.Chain.DefaultSettings` | codec/aacdecode/reverb.c:55-62 | it does with the settings the code ships, whose third comb has neither delay nor gain; at 48 kHz and half gains they are the ones of `Reverb.PulseAnswer` |
| `Reverb.Chain.ReverbFilter` | codec/aacdecode/reverb.c:409-451 | over any number of frames and with any delays, none included, the output is the blend of input and all-pass of the combs' sum, each by its infinite recurrence with 32-bit wrap-around; with gains to one half and inputs to 2^28 / 3 it is the plain one of `Reverb.ChainIsPlain` |
| `Reverb.ChainIsPlain` | codec/aacdecode/reverb.c:409-451 | with such gains and inputs nothing wraps: the output is floor((src x + rev wet) / 2^28), wet the all-pass of the sum of the three combs, all by recurrences over the integers |
| `Reverb.CombEchoes` | codec/aacdecode/reverb.c:287-333 | a comb answers a pulse with echoes at the multiples of its delay, each the last one gained and rounded down, and with nothing between |
| `Reverb.PulseSpaced` | codec/aacdecode/reverb.c:55-62 | with the shipped settings at 48 kHz a pulse is answered at multiples of 5 ms alone |
| `Reverb.PulseAnswer` | codec/aacdecode/reverb.c:55-62 | at once by the pulse less the all-pass's share, and 15 ms later by that share: 275 and -225 for 1000 |
| `Reverb.CombBounded` | codec/aacdecode/reverb.c:318-330 | with gains to one half and inputs to 2^29 the comb never wraps: the plain recurrence, within twice the input |
| `Reverb.AllPassBounded` | codec/aacdecode/reverb.c:365-386 | the same for the all-pass, within three times the input |
| `Rings.InputRing.DriverWrite` | driver/audio/ite_audio.c:664-700 | a byte the driver has room for is appended to the unread bytes; it never stores in the guard area nor, once wrapped, at or behind the read pointer it was told. The driver keeps two bytes free, and this one only one, so it admits more |
| `Rings.InputRing.Turn` | driver/audio/ite_audio.c:2105-2190 | whatever the driver does at a turn, what the decoder has seen and the unread bytes stay, with new ones behind |
| `Rings.InputRing.SeenFirst` | codec/aacdecode/main.c:568-568 | what lies up to the write pointer last read is the beginning of what is unread, however far the driver has gone since |
| `Rings.InputRing.Available` | codec/aacdecode/main.c:672-675 | the computed length is the number of bytes up to the pointer last read, wrapped or not, and never more than there are |
| `Rings.InputRing.Relocate` | codec/aacdecode/main.c:587-592 | with a turn of the driver before and after every byte of the copy and between moving the pointer and telling it: the unread bytes keep their order, the known ones become contiguous |
| `Rings.InputRing.PublishRead` | codec/aacdecode/main.c:593-595 | the pointer given to the driver never passes the decoder's, so no unread byte becomes writable |
| `Rings.InputRing.FillReadBuffer` | codec/aacdecode/main.c:507-704 | for every interleaving with the driver, turns between all steps included, no byte is lost or reordered, the length is exact for the pointer last read, and unless the stream has ended the bytes waited for lie contiguously at the decoder's pointer |
| `Rings.QueueGrows` | codec/aacdecode/main.c:992-1009 | advancing the write index over a frame with more than a frame free appends it, with wrap |
| `Rings.PcmRing.constructor` | codec/aacdecode/main.c:121-127 | an empty ring with room for a frame |
| `Rings.PcmRing.FreeIsExact` | codec/aacdecode/main.c:1022-1029 | at least the computed bytes are free, exactly those when the pointer last read is the DAC's, and equal indices mean an empty queue, never a full one |
| `Rings.PcmRing.WriteFrame` | codec/aacdecode/main.c:1723-1730 | with a turn of the DAC after every byte, a frame of a size dividing the buffer is written inside it and over nothing queued |
| `Rings.PcmRing.FillWriteBuffer` | codec/aacdecode/main.c:952-1046 | for every interleaving with the DAC what is played and queued is what was handed over, in order, and the wait ends with room for the next frame or with the stop signal |
| `PsHuff.TreesOk` | codec/aacdecode/ps_syntax.c:55-315 | all ten trees: inner children have larger indices than their parent, each has one parent, and a range of consecutive values sits on exactly one leaf each |
| `PsHuff.CodeIsWalk` | codec/aacdecode/ps_syntax.c:501-512 | the path of any value's leaf falls off the tree at that value and on no shorter part |
| `PsHuff.CodeUnique` | codec/aacdecode/ps_syntax.c:501-512 | at most one value's path stands at a place in the stream |
| `PsHuff.PsHuffDec` | codec/aacdecode/ps_syntax.c:501-512 | on any bits the walk ends, consumes exactly one path from the root to a leaf and returns that leaf's value |
| `PsHuff.PrintUnique` | codec/aacdecode/ps_syntax.c:477-498 | vectors of one length are told apart by their printed paths |
| `PsHuff.HuffData` | codec/aacdecode/ps_syntax.c:477-498 | the parameters read are the ones whose paths stand in the stream, in time or frequency direction, also when none is wanted |

## Left out

- DequantLaw.MagnitudeLaw: the error is stated for the twelfth power, 300 parts in 2^24, which is 1.5 parts in a million of the magnitude itself; the true one is smaller.
- MsMask.PackMask: what the zero stored behind a full mask does to the field that follows it is not modelled.
- SpectrumBlocks.DecodeSpectrumShort: what is read past the offset table at index 12 is not modelled; the model stops there.
- Rings.InputRing.FillReadBuffer: the sync-word search of the waiting loop is not modelled.
- SpectrumBlocks.DecodeSpectrumLong: a pulse start band past the rate's own table, where the original reads the next rate's, is not followed; the model stops there.
- ChannelStream.DecodeChannel: channels with TNS or gain control data, and long headers with prediction flags, are not printed; the flags alone are in `Noiseless.DecodeICSInfo`.
- RawBlock.PSInfo.DecodeNextElement: coupling, data stream and program config elements are not printed; what any element's parse does to the cursor is in `Reseat.Cursor.DecodeNextElement`.
- RawBlock.PSInfo.GetADTSChannelMapping: a block cut off by the end of the buffer has no stated channels, and dequantization and synthesis between the streams, which the decoder's own loop has, are their own models.
- Imdct.Channel.IMDCT: the DCT-IV before windowing is not part of this model, so its output is an argument; the window tables are arguments too, which `Aliasing` takes to be power complementary, and the SBR build's routines without clipping are left out.
- Scalefactor values that a stream's differences cannot code, and spectral data outside its codebooks, have no stated value.
- ADIF and LATM headers, program config, TNS, gain control and data stream elements, SBR side information.
- The extension loop of the parametric stereo parser, and the base AAC FFT's own bit reversal, radix-4 pass and DCT-IV.
- PTS correction, hardware registers, cache invalidation, sleeping, message queues, plug-in and printing code.
- The equalizer, the frequency display and the down-mix.
- The entries of the Huffman, scalefactor band and parametric stereo tables are the source's; what is proved of them are the properties of a code and of a layout.
- Closeness of the windows to real trigonometry.
