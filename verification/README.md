# Verified model of foo_dsp_bfir

foo_dsp_bfir is an audio plug-in that filters long streams with long impulse responses. This project models its four
stateful parts in Dafny and proves what each promises over every run:

1. **The partitioned FIR engine.** Uniformly partitioned overlap-save with double-buffered time blocks, a ring of input
   spectra, multiply-accumulate in a permuted layout and a scratch buffer borrowed from channel 0. The transform is
   defined from any table of sines and cosines that obeys the addition laws and makes one full turn in n steps; the
   orthogonality of its waves, the convolution theorem and the inversion theorem are proved from that. On top of it the
   engine equals the direct-form sum `y[t] = sum h[k] * x[t - k]` for every channel, every run and any swaps of
   coefficients, and the host's re-blocking loop makes that hold however the stream is cut into chunks. Channels that
   share scratch memory behave as if each ran alone. `Playback` puts it together, from set-up to the last chunk.
2. **The delay line.** A ring of fragments with a rest buffer, or two short buffers, updated in place on one channel of an
   interleaved buffer, with a delay that may change between fragments; and the fractional delay built on overlap-save.
3. **The JSON printer and parser** (json_spirit; text format of RFC 4627, strings of section 2.5). What is read is told
   without the parser, by spellings: a value's tokens in order with any white space before each. Exactly the texts that
   begin with one are read, as the value spelled; others are given up where their container breaks off. What is printed
   is laid out by its tokens, and is a spelling of its value, so parsing it rebuilds the value, and what was read can be
   printed and read again. For every text at all no event the grammar fires drives the tree builder into a failing
   assertion or leaves one of its pointers stale.
4. **Sample quantisation.** The undithered quantiser and its meters, error feedback with its bound over a whole run, the
   shared dither table with its wrap-around, and the byte-level round trip of integer samples.

Files follow the program: `Arithmetic`, `Sums`, `HalfComplex`, `EightSteps`, `PackedLayout`, `Fir`, `OverlapSave` are
the mathematics; `Convolver`, `MixNScale`, `Dirac`, `Coefficients`, `BufferLayout`, `Interleave`, `ChannelStep`,
`Engine`, `Host`, `Playback`, `Subsample` are the convolver; `Strided`, `DelayRing`, `DelayHistory`, `DelayLine` the
delay; `JsonText`, `JsonWriter`, `JsonReader`, `JsonTokens`, `JsonSpelling`, `JsonErrors`, `JsonActions`, `JsonRoundTrip`,
`JsonLayout`, `JsonDocument`, `JsonReread` the JSON library; `Quantiser`, `Dither`, `Pcm` the sample formats.
`dafny verify dfyconfig.toml` checks the whole project.

Samples are exact reals. A 64-bit or 32-bit bound is written out where it matters (JSON integers, PCM samples). A buffer
the original updates in place is an array here, an object a class, a pointer into a JSON tree the path to its target, a
null buffer an empty array. Ghost fields keep the history a class has seen, so that its invariant speaks of the whole run.

Where code and documentation differ, the model follows the code. `set_coeff` on data returns -2 when coefficients could
not be loaded, its comment says -1 (brutefir/brutefir.cpp:178, 223; `Engine.BruteFir.SetCoeff` says when).
`get_next_multiple` returns the value itself when it is a positive multiple and only then, its comment says a greater
one (brutefir/util.cpp:36-56; `Coefficients.GetNextMultiple`). The dithered quantiser looks at the undithered sample to
decide whether to note the dithered one as the largest (brutefir/dither.cpp:305, 328): `Dither.LargestWrong` has a peak
that is missed and one that lowers the meter, `Dither.LargestRight` when the meter is right, `Dither.Dither.LargestRun`
over a run. The dither table may take one byte more than the maximum it is given (brutefir/dither.cpp:46-60):
`Dither.OneByteOver` has an input, `Dither.LimitedTable` the condition. An allocation of a delay line may be too small
for its own initial delay (brutefir/delay.cpp:72-76): `DelayLine.NineSamples` has an input, `DelayLine.Sizes` the
condition.

## Model

| member | source | states |
|---|---|---|
| `HalfComplex.ConvolutionTheorem` | brutefir/fftw_convolver.cpp:820-856 | transforming back the half-complex product of two spectra gives n times the circular convolution of the two signals, for every table of sines and cosines that obeys the addition laws |
| `HalfComplex.InversionTheorem` | brutefir/fftw_convolver.cpp:188-212 | the half-complex transform followed by its inverse gives n times the signal |
| `HalfComplex.Orthogonality` | brutefir/fftw_convolver.cpp:188-212 | the table alone (addition laws, one full turn in n steps and no earlier) makes every wave sum over n steps vanish unless its frequency is a multiple of n |
| `EightSteps.EightStepsValid` | brutefir/fftw_convolver.cpp:188-212 | what the transforms ask of a table is met by eight steps of an eighth of a turn, for any square root of one half |
| `HalfComplex.ProductBins` | brutefir/fftw_convolver.cpp:820-856 | the half-complex product multiplies the complex bins, the purely real first and last bins and the conjugate-symmetric upper half included |
| `Convolver.Time2Freq` | brutefir/fftw_convolver.cpp:188-212 | out of place or in place, the output buffer holds the transform of the input |
| `Convolver.Freq2Time` | brutefir/fftw_convolver.cpp:351-375 | out of place or in place, the output holds the inverse transform of what the input held |
| `Convolver.Convolve` | brutefir/fftw_convolver.cpp:2161-2189 | the eight-entry passes with the first and fifth entry repaired afterwards leave the packed product of both spectra in the output |
| `Convolver.ConvolveInplace` | brutefir/fftw_convolver.cpp:2126-2158 | the in-place loop, which overwrites what it still needs unless saved, leaves the same packed product |
| `Convolver.ConvolveAdd` | brutefir/fftw_convolver.cpp:2192-2220 | the accumulating loop adds the packed product to what the output held |
| `Convolver.ConvolveInplaceOrdered` | brutefir/fftw_convolver.cpp:820-856 | the in-place loop from both ends of a half-complex spectrum leaves the half-complex product |
| `PackedLayout.Permutation` | brutefir/fftw_convolver.cpp:1580-1854 | the "4 real, 4 imaginary" layout puts every half-complex entry in exactly one place, for every transform size divisible by 8 |
| `PackedLayout.PackedAt` | brutefir/fftw_convolver.cpp:1580-1854 | of every eight numbers the first four are real parts of four bins and the others their imaginary parts, the last bin of all in the place of the missing one |
| `PackedLayout.PackRoundTrip` | brutefir/fftw_convolver.cpp:1857-2115 | packing and unpacking undo each other |
| `PackedLayout.PackedProductIsProduct` | brutefir/fftw_convolver.cpp:2126-2220 | multiplying packed spectra is the packed image of multiplying half-complex spectra, DC and Nyquist bins included |
| `MixNScale.Entry` | brutefir/fftw_convolver.cpp:1580-1854 | the expressions written out for one to four buffers and the loop beyond compute the same weighted sum |
| `MixNScale.MixIs` | brutefir/fftw_convolver.cpp:1580-1854 | an entry of the mix is the sum over the buffers of their entries times their scales |
| `MixNScale.MixInput` | brutefir/fftw_convolver.cpp:1580-1854 | input mode leaves the packed weighted sum of any number of buffers, and its passes hit every output place exactly once; the unrolled cases one to four equal the general sum |
| `MixNScale.MixOutput` | brutefir/fftw_convolver.cpp:1857-2115 | output mode leaves the unpacked weighted sum of packed buffers, and its passes hit every output place exactly once |
| `MixNScale.MixThereAndBack` | brutefir/fftw_convolver.cpp:1580-2115 | output mode after input mode gives the spectrum back times the product of both scales |
| `OverlapSave.OverlapSaveStep` | brutefir/fftw_convolver.cpp:709-777 | the first half of the circular convolution of [previous block, current block] with [zeros, taps] is the exact linear convolution |
| `OverlapSave.PartitionResponse` | brutefir/brutefir.cpp:252-311 | the product of the packed spectra of a frame and of one partition, transformed back, is the response of that partition to the whole signal |
| `OverlapSave.AccumulatedResponse` | brutefir/brutefir.cpp:284-300 | the sum of the products over the first m partitions, each with the frame that many blocks back, is the response of the first m blocks of taps |
| `Fir.SplitTaps` | brutefir/brutefir.cpp:284-300 | a filter cut into a head and a tail is the head plus the tail on the delayed signal |
| `Coefficients.Coeffs2Cbuf` | brutefir/fftw_convolver.cpp:475-537 | a coefficient block becomes the packed spectrum of [zeros, scaled taps padded to the block] over the transform size |
| `Coefficients.PreprocessBlock` | brutefir/coeff.cpp:315-339 | the full, the partial and the zero branch all give the spectrum of the slice of the padded taps that starts at the block |
| `Coefficients.PreprocessCoeff` | brutefir/coeff.cpp:293-350 | for any length and block count the blocks are the spectra of the consecutive partitions of the scaled coefficients, truncated or zero-padded to the blocks asked for, across the full, partial, empty-partial and all-zero branches |
| `Coefficients.GetNextMultiple` | brutefir/util.cpp:45-56 | the least positive multiple of the factor that is not below the value, the value itself if and only if it is one |
| `Dirac.DiracConvolve` | brutefir/fftw_convolver.cpp:2223-2251 | alternating signs over the transform size, into another buffer or in place, are the spectral product with a unit impulse |
| `Dirac.DiracPassesThrough` | brutefir/fftw_convolver.cpp:2223-2251 | a block multiplied this way and transformed back is the input block times the input scale |
| `BufferLayout.InitBuffers` | brutefir/brutefir.cpp:739-812 | the two carving loops give every buffer the slot the layout assigns it and leave the running pointer exactly at the allocated size |
| `BufferLayout.PlaceRings` | brutefir/brutefir.cpp:773-786 | the running pointer gives each channel its ring slots in order and the accumulator behind them |
| `BufferLayout.PlaceRest` | brutefir/brutefir.cpp:797-808 | then two time buffers and two spectra for each channel, the pointer ending behind the last of them |
| `BufferLayout.SlotsDisjoint` | brutefir/brutefir.cpp:757-807 | two buffers lie in the same slot only if they are the same or are the ring and the accumulator of one channel with a single block |
| `BufferLayout.SlotsFill` | brutefir/brutefir.cpp:757-807 | every slot of the allocation belongs to some buffer in use |
| `ChannelStep.AccumulatePartitions` | brutefir/brutefir.cpp:272-300 | the one-block branch (in place, ring shared with the accumulator) and the multi-block branch both leave the accumulated product of the partitions that are loaded and have been fed |
| `ChannelStep.ProcessedIsEnough` | brutefir/brutefir.cpp:265-299 | partitions not yet fed add nothing: stopping at the blocks processed so far gives the response of all partitions |
| `ChannelStep.TakeBlock` | brutefir/brutefir.cpp:254-281 | the other time buffer receives the next block, the ring slot of this block its packed spectrum, and the ring still holds the spectra of the latest n_blocks frames, none read before it was written |
| `ChannelStep.EmitBlock` | brutefir/brutefir.cpp:302-334 | scaling, unpacking and transforming the accumulated spectrum back leaves the filtered block in the scratch buffer, although that buffer is channel 0's accumulator |
| `ChannelStep.ProcessChannel` | brutefir/brutefir.cpp:252-341 | one channel of one block: the ring invariant for the longer input, the direct-form output in this channel's places of the output buffer and no other |
| `Interleave.Raw2Cbuf` | brutefir/fftw_convolver.cpp:173-185 | the channel's block is the first half of the next buffer and the second half of the current one, behind the block read before |
| `Interleave.ChannelAt` | brutefir/fftw_convolver.cpp:173-185 | sample i of channel n is the one n places behind frame i of the interleaved signal |
| `Interleave.Cbuf2Raw` | brutefir/fftw_convolver.cpp:457-465 | the block goes to the channel's places of the output buffer and leaves all other channels' samples alone |
| `Engine.BruteFir.constructor` | brutefir/brutefir.cpp:21-45 | all buffers come from one allocation laid out as above, every sample of it silent, with no coefficients and no history |
| `Engine.BruteFir.OthersUntouched` | brutefir/brutefir.cpp:252-334 | what processing one channel writes (its own buffers and the borrowed accumulator of channel 0) is nothing another channel reads later |
| `Engine.BruteFir.RunChannel` | brutefir/brutefir.cpp:252-341 | the loop body for one channel: its ring and history move on, its samples are written, and every other channel remembers what it remembered and keeps its samples |
| `Engine.BruteFir.Run` | brutefir/brutefir.cpp:245-343 | for every channel the output is the direct-form filter of everything ever fed in with the taps now loaded, for any coefficient swaps between blocks and also when input and output buffer are the same |
| `Engine.BruteFir.SetCoeff` | brutefir/brutefir.cpp:180-231 | success loads the scaled, partitioned taps of the first channels and leaves the history alone; a missing buffer drops everything and returns -2 |
| `Engine.BruteFir.FreeCoeff` | brutefir/brutefir.cpp:834-860 | no coefficients are left and the filter is not initialised |
| `Host.DspBfir.OnChunk` | foo_dsp_bfir/foo_dsp_bfir.cpp:299-352 | for every chunk of whole frames the blocks run are the next blocks of everything fed, the buffer holds exactly the rest, what is emitted is the filtered stream, and the loaded coefficients stay |
| `Host.DspBfir.Fill` | foo_dsp_bfir/foo_dsp_bfir.cpp:309-325 | copying frames into the buffer keeps it equal to the part of the stream not yet run |
| `Host.DspBfir.RunBlock` | foo_dsp_bfir/foo_dsp_bfir.cpp:327-345 | a full buffer is run, its filtered block is emitted, nothing is left waiting, and the loaded coefficients stay |
| `Host.ChunkIndependence` | foo_dsp_bfir/foo_dsp_bfir.cpp:307-349 | two plug-ins with the same filter that took the same stream in any two ways of cutting it emitted the same samples and hold the same rest |
| `Host.EmittedIsFir` | foo_dsp_bfir/foo_dsp_bfir.cpp:307-349 | every emitted sample is the direct-form sum of its channel's input with the coefficients that fit into the blocks loaded and into n_blocks, and less than one block is waiting |
| `Host.ChannelAlone` | brutefir/brutefir.cpp:252-334 | an n-channel run equals n one-channel runs: each channel's emitted stream is what a plug-in with that channel alone emits, however the two streams were cut |
| `Host.FewestBlocks` | foo_dsp_bfir/foo_dsp_bfir.cpp:275-286 | the length rounded up to whole blocks gives the fewest blocks that lose no coefficient: k blocks keep all of them if and only if k is at least that many |
| `Host.EnoughBlocks` | foo_dsp_bfir/foo_dsp_bfir.cpp:275-286 | with that many blocks loaded and in the filter it is the direct-form filter of all coefficients |
| `Host.LostTap` | brutefir/brutefir.cpp:284-300 | a tap there is no room for does not come out: a unit impulse gives zero at its position |
| `Host.LoadedFilter` | brutefir/brutefir.cpp:245-343 | when all coefficients fit, the filter is their direct-form response times all scales |
| `Host.TruncatedFilter` | brutefir/brutefir.cpp:284-300 | for any number of coefficient blocks and any length, the filter is the direct-form response of the coefficients that fit into min(blocks, n_blocks) partitions, times all scales: everything beyond has no effect |
| `Playback.SetUp` | foo_dsp_bfir/foo_dsp_bfir.cpp:270-292 | the plug-in begins with as many blocks as the response takes, all of them loaded, with no history and nothing emitted |
| `Playback.Play` | foo_dsp_bfir/foo_dsp_bfir.cpp:299-352 | over any list of chunks everything is fed, what comes out is appended to what was emitted, and the coefficients stay loaded |
| `Playback.JoinedFirst` | foo_dsp_bfir/foo_dsp_bfir.cpp:299-352 | the chunks are joined first one first |
| `Playback.EmittedIsWholeFir` | foo_dsp_bfir/foo_dsp_bfir.cpp:270-352 | from set-up on every emitted sample is the direct-form filter of its channel with all coefficients |
| `Playback.Lifetime` | foo_dsp_bfir/foo_dsp_bfir.cpp:270-352 | end to end: for every response and every way of cutting a stream into chunks, all that comes out is the direct-form filter of the joined chunks with all coefficients, and less than one block is still to come |
| `Subsample.TdNew` | brutefir/fftw_convolver.cpp:709-757 | the prepared filter is the spectrum of [zeros, taps padded to the block] over the transform size |
| `Subsample.TdConvolve` | brutefir/fftw_convolver.cpp:760-777 | the first half of the block becomes the response of the taps at the positions of the second half |
| `Subsample.SubsampleUpdate` | brutefir/delay.cpp:149-180 | carrying the last block between calls, every fragment becomes the direct-form response of the chosen step's taps to the whole stream; a step out of range leaves everything alone |
| `Subsample.CentreTapDelays` | brutefir/delay.cpp:227-240 | the filter of step zero is a plain delay by half its length |
| `Strided.Gather` | brutefir/delay.cpp:309-369 | every spacing-th sample goes to the buffer, in order |
| `Strided.SampleAt` | brutefir/delay.cpp:309-369 | sample k of a channel is the one spacing times k places behind its base |
| `Strided.Scatter` | brutefir/delay.cpp:372-432 | the samples go to every spacing-th place and nothing between them changes |
| `Strided.KeptAt` | brutefir/delay.cpp:372-432 | what is at no such place is kept |
| `Strided.Shift` | brutefir/delay.cpp:435-493 | moving overlapping samples later, last one first, preserves them; other channels are untouched |
| `DelayRing.RingTurns` | brutefir/delay.cpp:496-531 | ring and rest are a queue: one turn takes out the oldest fragment and puts in the new one |
| `DelayHistory.QueueStep` | brutefir/delay.cpp:496-550 | a queue of d samples that holds what is owed gives what is owed and goes on holding it |
| `DelayHistory.RunGrows` | brutefir/delay.cpp:28-54 | a run that kept its promise in all its epochs keeps it with one more fragment |
| `DelayHistory.EpochOpens` | brutefir/delay.cpp:552-600 | a new delay begins a new epoch and leaves the earlier ones as they were |
| `DelayLine.Sizes` | brutefir/delay.cpp:66-137 | the counters fit what is allocated if and only if the maximum is not positive, the initial delay is within it, or both fill the same number of whole fragments and the maximum more than one; there is room for every delay up to the maximum |
| `DelayLine.DelayBuffer.constructor` | brutefir/delay.cpp:57-140 | the line begins with its delay in silence, in the ring if and only if the delay is at least a fragment and the maximum more than one; a maximum of zero means no delay |
| `DelayLine.DelayBuffer.UpdateDelayBuffer` | brutefir/delay.cpp:496-531 | in place on one channel, the oldest fragment of queue and input comes out and the rest stays queued |
| `DelayLine.DelayBuffer.UpdateDelayShortBuffer` | brutefir/delay.cpp:534-550 | the same with two buffers used in turn |
| `DelayLine.DelayBuffer.ChangeToShort` | brutefir/delay.cpp:564-579 | the counters fit the short delay and the buffers are silent if the ring was in use or the delay shorter before, also for a ring allocated for one whole fragment, where the code clears nothing; otherwise the start of the second short buffer comes out next |
| `DelayLine.DelayBuffer.ChangeToLong` | brutefir/delay.cpp:581-599 | the counters fit the long delay; ring and rest are silent if it was shorter before, otherwise what they hold comes out |
| `DelayLine.DelayBuffer.ChangeDelay` | brutefir/delay.cpp:552-600 | a new delay within the maximum opens an epoch, which starts silent on every increase and whenever the ring is left for the short buffers, and otherwise begins with what the buffers hold; any other request changes nothing; afterwards the ring is in use if and only if the new delay is more than a fragment |
| `DelayLine.DelayBuffer.Update` | brutefir/delay.cpp:28-54 | over every run with varying delays each output sample is the input d samples earlier; an increase within the maximum, and leaving the ring, start the epoch in silence, a decrease within a mode with what was left in its buffers; in place or into a buffer of its own; delay and mode are those the request leaves |
| `DelayLine.DelayBuffer.EpochIsShift` | brutefir/delay.cpp:28-54 | in every epoch of every run the output from its first d samples on is the epoch's input stretch moved later by d, so what was stale after a change never reaches further; those first samples are zero if the epoch started silent |
| `DelayLine.DelayBuffer.SilentStart` | brutefir/delay.cpp:552-600 | over every run the first d samples of the first epoch, of every epoch with a longer delay than the one before and of every short one after a long one are zero |
| `DelayLine.DelayBuffer.LeftAt` | brutefir/delay.cpp:581-599 | what is left in the ring for a shorter delay is the start of the rest and then, sample by sample, the second buffer and those behind it |
| `JsonText.UnicodeRoundTrip` | json_spirit/json_spirit_writer_template.h:40-55 | the four hexadecimal digits of a byte read back as that byte |
| `JsonText.AddEscChars` | json_spirit/json_spirit_writer_template.h:57-110 | the loop writes each character as its short escape, itself, or four hexadecimal digits |
| `JsonText.EscapedAs` | json_spirit/json_spirit_writer_template.h:40-110 | seven characters are written as their short escapes, printable ones and with raw all others as themselves, the rest as \u and four large hexadecimal digits |
| `JsonText.SubstituteEscChars` | json_spirit/json_spirit_reader_template.h:122-156 | the loop over plain stretches and escapes computes the unescaped text, texts too short to hold an escape included |
| `JsonText.AppendEscCharAndIncrIter` | json_spirit/json_spirit_reader_template.h:84-120 | each escape stands for its character and takes the right number of characters; an unknown or cut-off escape stands for nothing |
| `JsonText.ShortEscapes` | json_spirit/json_spirit_reader_template.h:84-120 | the eight escapes of one character, slash included, stand for their characters; any other letter and a cut-off numeric escape stand for nothing |
| `JsonText.NumericEscapes` | json_spirit/json_spirit_reader_template.h:40-82 | \x with two and \u with four digits, large or small, stand for the byte of the last two digits |
| `JsonText.PlainUnescaped` | json_spirit/json_spirit_reader_template.h:122-156 | text without a backslash stands for itself |
| `JsonText.EscapeUnescaped` | json_spirit/json_spirit_reader_template.h:122-156 | a backslash stands with the text behind it for what that escapes, and at the very end for itself |
| `JsonText.EscapeRoundTrip` | json_spirit/json_spirit_reader_template.h:84-156 | unescaping an escaped byte string gives it back, whatever counts as printable and whether or not bytes are left raw |
| `JsonText.NoQuoteInside` | json_spirit/json_spirit_reader_template.h:486-496 | scanning with every backslash taking the next character along finds no closing quote inside an escaped string |
| `JsonWriter.Generator.constructor` | json_spirit/json_spirit_writer_template.h:178-187 | the stream gets the whole printed value |
| `JsonWriter.Generator.Output` | json_spirit/json_spirit_writer_template.h:191-264 | each kind of value is appended as printed at the present indentation, which is restored |
| `JsonWriter.Generator.OutputArrayOrObj` | json_spirit/json_spirit_writer_template.h:267-290 | brackets, children, separators, line ends and indentation as the layout prescribes |
| `JsonWriter.Generator.OutputItems` | json_spirit/json_spirit_writer_template.h:273-285 | the loop writes every child with its indentation, a comma after each but the last, and line ends |
| `JsonWriter.Generator.OutputMember` | json_spirit/json_spirit_writer_template.h:216-221 | a member is its quoted name, a colon with the spacing of the layout, and its value |
| `JsonLayout.Layout` | json_spirit/json_spirit_writer_template.h:178-310 | the text is the tokens of the value in order; compact with nothing between them, pretty with one blank on either side of a colon, nothing before a comma, and every other token, each child and each closing bracket, on a line of its own begun by four blanks for each container around it |
| `JsonLayout.SqueezedIsCompact` | json_spirit/json_spirit_writer_template.h:292-310 | with blanks and line ends outside quotes taken out, pretty text is the compact text, and compact text has none |
| `JsonTokens.ReadsToken` | json_spirit/json_spirit_reader_template.h:446-503 | every word, quoted string, 64-bit integer and real number (sign, digits, dot, exponent, each where they may stand) is read whole as its event; a number must be complete there: no digit follows, no exponent a real number lacks, and an integer does not begin a real number |
| `JsonTokens.TokenSplit` | json_spirit/json_spirit_reader_template.h:446-503 | and whatever is read where no bracket opens is such a token, complete where it ends |
| `JsonTokens.EndsComplete` | json_spirit/json_spirit_reader_template.h:498-502 | in front of anything but a digit, a dot and the letter e every number is complete |
| `JsonTokens.RealReadBack` | json_spirit/json_spirit_reader_template.h:498-502 | a text that is a real number from end to end is read whole in front of anything that does not continue it |
| `JsonSpelling.ReadsValue` | json_spirit/json_spirit_reader_template.h:446-503 | a value spelled with any white space (blank and characters 9 to 13) before any of its tokens is matched: its events are fired and exactly what stands behind it is left; only a number standing alone must be complete there |
| `JsonSpelling.ValueSpelled` | json_spirit/json_spirit_reader_template.h:446-503 | a text is matched only if it begins with such a spelling, complete there, whose events are those fired |
| `JsonErrors.TextBroken` | json_spirit/json_spirit_reader_template.h:384-409 | a text that is given up begins with no value, or with a container that breaks off at its bracket, behind a name or behind a colon: what was read of it has fired its events, and the reason says what is missing there |
| `JsonActions.GrownInside` | json_spirit/json_spirit_reader_template.h:302-345 | adding to the child just added is adding the larger child |
| `JsonActions.StepKeepsSpine` | json_spirit/json_spirit_reader_template.h:293-345 | after every event the stack and the current pointer are the nodes of the rightmost open spine, from the root down |
| `JsonActions.RunKeepsSpine` | json_spirit/json_spirit_reader_template.h:293-345 | the same over every run of events |
| `JsonActions.NoPointerGoesStale` | json_spirit/json_spirit_reader_template.h:329-345 | for every event and every pointer in the stack or current: its path is still on the spine after the step, and no container above its target has changed its size |
| `JsonActions.RunKeepsPointers` | json_spirit/json_spirit_reader_template.h:293-345 | the same at every event of every legal run |
| `JsonActions.NodeChildren` | json_spirit/json_spirit_reader_template.h:293-345 | a container that is read has the items of its text as children, in order and under their unescaped names |
| `JsonActions.EventValue` | json_spirit/json_spirit_reader_template.h:240-286 | the event of a token adds the value the token stands for |
| `JsonActions.BuildsInside` | json_spirit/json_spirit_reader_template.h:293-345 | inside any open container the events of a spelled value add that value there and leave the pointers as they were |
| `JsonActions.BuildsRoot` | json_spirit/json_spirit_reader_template.h:212-286 | from the start the events of a spelled value build that value |
| `JsonActions.SemanticActions.AddToCurrent` | json_spirit/json_spirit_reader_template.h:329-345 | the child is added to the container the current pointer names and a pointer to it is returned |
| `JsonActions.SemanticActions.BeginCompound` | json_spirit/json_spirit_reader_template.h:302-317 | the enclosing pointer is stacked and the new container becomes the current one |
| `JsonActions.SemanticActions.EndCompound` | json_spirit/json_spirit_reader_template.h:319-327 | the last stacked pointer becomes current; at the root nothing happens |
| `JsonActions.SemanticActions.Act` | json_spirit/json_spirit_reader_template.h:212-286 | every event moves the builder as the state machine says |
| `JsonRoundTrip.NumberSpelled` | json_spirit/json_spirit_reader_template.h:498-502 | every 64-bit integer is written without leading zeros or plus sign, as a token that stands for it, unsigned ones that fit as signed |
| `JsonRoundTrip.StringSpelled` | json_spirit/json_spirit_writer_template.h:57-110 | a byte string is written as a text that its closing quote ends and that stands for the string |
| `JsonRoundTrip.PrintedText` | json_spirit/json_spirit_writer_template.h:178-310 | a printed value, at any indentation, is a spelling with the layout as its white space |
| `JsonRoundTrip.PrintedValue` | json_spirit/json_spirit_writer_template.h:178-310 | and that spelling stands for the value in its normal form |
| `JsonRoundTrip.NormalIsSame` | json_spirit/json_spirit_value.h:30-86 | a value comes back unchanged if and only if it has no unsigned integer that fits the signed type and no real number the stream writes in another way |
| `JsonRoundTrip.TextReadBack` | json_spirit/json_spirit_writer_template.h:191-310 | a printed value is read back with white space before it and, if it is a number, anything that does not continue one behind it |
| `JsonDocument.TextLegal` | json_spirit/json_spirit_reader_template.h:446-503 | for every text, accepted or rejected, no event fired finds the builder in a state whose assertions would fail |
| `JsonDocument.TextKeepsPointers` | json_spirit/json_spirit_reader_template.h:293-345 | and at no event of any text does a pointer the builder holds go stale |
| `JsonDocument.ReadRange` | json_spirit/json_spirit_reader_template.h:556-595 | a text is read if and only if it begins with a spelled value: the value spelled is the value read and what stands behind it is left; otherwise the text stays as it was, with the reason for which it was given up and the value built until then |
| `JsonDocument.SpelledText` | json_spirit/json_spirit_reader_template.h:556-595 | every spelled value is read as the value it stands for, whatever its white space |
| `JsonDocument.AcceptedText` | json_spirit/json_spirit_reader_template.h:556-595 | and whatever is accepted is one |
| `JsonDocument.WriteReadRoundTrip` | json_spirit/json_spirit_writer_template.h:178-310 | parsing what was printed, compact or pretty, raw or escaped, rebuilds the value up to the signedness of small integers and the way the stream writes real numbers |
| `JsonDocument.PlainRoundTrip` | json_spirit/json_spirit_writer_template.h:178-310 | and exactly the value if it has no small unsigned integers and its real numbers are written as they were read |
| `JsonReread.ReadWriteRead` | json_spirit/json_spirit_reader_template.h:556-595 | the value of any accepted byte text can be stored; printed in any style and read again it comes back, unchanged if and only if the stream writes its real numbers as they were read |
| `JsonReread.RunSound` | json_spirit/json_spirit_reader_template.h:212-286 | every run over well-formed events builds a value of byte strings, integers in range and real numbers |
| `JsonReread.ValueClean` | json_spirit/json_spirit_reader_template.h:446-503 | the grammar fires only such events on a text of bytes: integers in the range of their type, unsigned only when they do not fit the signed one |
| `Quantiser.SampleInRange` | brutefir/dither.cpp:350-409 | every sample lies in [imin, imax] |
| `Quantiser.SampleMonotone` | brutefir/dither.cpp:350-409 | a larger input never gives a smaller sample, across the clipping and the sign |
| `Quantiser.WithinHalf` | brutefir/dither.cpp:350-409 | a sample is within half a step of the input if and only if the input is within half a step of the range |
| `Quantiser.IntegerSample` | brutefir/dither.cpp:350-409 | an integer in range comes back, and counts as clipped if and only if it is imax |
| `Quantiser.Real2IntNoDither` | brutefir/dither.cpp:350-409 | the branches compute that sample and move the meters to the clip count, the largest output and the largest clipped input |
| `Quantiser.SampleExact` | brutefir/dither.cpp:350-409 | every case: the limits where it clips, and between them the integer at or below, for a negative input the one strictly below |
| `Dither.DifferenceCovered` | brutefir/dither.cpp:77-103 | the offset map covers the difference of two table bytes if and only if it is not that of the largest and the smallest byte |
| `Dither.OffsetRange` | brutefir/dither.cpp:77-103 | offsets inside the map lie between -0.5 and 1.5 |
| `Dither.OffsetLaw` | brutefir/dither.cpp:77-103 | inside the map the offset is one half and a 255th of the difference and one |
| `Dither.HighPass` | brutefir/dither.cpp:77-103 | over any stretch inside the map the offsets less their mean add up to a 255th of the last byte less the first |
| `Dither.TableSpacing` | brutefir/dither.cpp:29-60 | the spacing is ten seconds or a block, whichever is more, or what the limit allows if that is less; it holds a second and a block; construction fails exactly when no such spacing exists |
| `Dither.LimitedTable` | brutefir/dither.cpp:46-60 | the table takes at most one byte more than its limit, and takes it if and only if the wished spacing reaches the limit and the channels divide it |
| `Dither.LargestRight` | brutefir/dither.cpp:299-331 | the largest-value meter after a clipped sample is right if and only if its undithered and its dithered input do not lie on different sides of the meter; it never shows more than the right value, and at most 1.5 less |
| `Dither.LargestIs` | brutefir/dither.cpp:299-331 | a clipped sample is noted with its dithered value exactly if the undithered input exceeds what was noted at that end |
| `Dither.Telescopes` | brutefir/dither.cpp:159-161 | the differences a channel has read add up to the difference of two bytes and every partial sum stays in [-255, 255] |
| `Dither.Dither.constructor` | brutefir/dither.cpp:60-110 | every channel begins inside the table without errors |
| `Dither.Dither.Preloop` | brutefir/dither.cpp:127-139 | the window is the next of the table, or the first if that one would reach the end, with the last byte this channel has seen put before it; no other channel's last byte is disturbed |
| `Dither.Dither.Real2IntHpTpdf` | brutefir/dither.cpp:276-347 | the sample truncates the input with both errors fed back, one half, and a 255th of the later byte less the earlier one and one; the output is the input less the error filtered by 1 - z + z^2, with the meters as the branches move them |
| `Dither.Dither.DitherBlock` | brutefir/fftw_convolver.cpp:444-456 | for every interleaving of channels' blocks the channel's whole history goes on: each output quantises the input with the two last errors fed back and the dither of its own consecutive bytes, from the start without errors; the bytes added are those of its window, which is the next of the table or, at its end, the first with its last byte put in front; the meters move as sample by sample over the run, and the overflow count not at all while the run is calm |
| `Dither.Dither.SampleWritten` | brutefir/dither.cpp:276-347 | the same for every sample of a channel's run, all written out: limits, errors, bytes and rounding |
| `Dither.Dither.MetersSay` | brutefir/dither.cpp:299-342 | after any stretch of a channel's run the meters show the old count and the samples that clipped, the largest output that did not, and the old largest value or that of a sample that clipped |
| `Dither.FeedbackStep` | brutefir/dither.cpp:290-344 | with small errors and a comfortable input nothing clips and the errors stay small |
| `Dither.Dither.CalmRun` | brutefir/dither.cpp:277-347 | over the whole run of a channel from construction, whatever blocks of other channels come between: while all inputs lie in (imin + 3.5, imax - 4.5] and no difference is 255, no sample clips, every error stays within 1.5 and every output within 4.5 of its input |
| `Dither.Dither.CalmTable` | brutefir/dither.cpp:60-110 | for a table without the largest or without the smallest byte that condition is one on the inputs alone |
| `Dither.Dither.LargestRun` | brutefir/dither.cpp:299-331 | if no clipped sample of a stretch straddled the meter it met, the meter ends as the largest of its start and all clipped values |
| `Pcm.BytesRoundTrip` | brutefir/real2raw.cpp:1027-1220 | the low bytes of a number with these bytes are these bytes, whatever is above them |
| `Pcm.ShiftedDown` | brutefir/raw2real.cpp:334-379 | three bytes in the upper part of a word, shifted down, keep value and sign |
| `Pcm.Limits` | brutefir/real2raw.cpp:1027-1220 | the limits of one to four bytes |
| `Pcm.LoadSample` | brutefir/raw2real.cpp:287-423 | one to four bytes, the first one lowest or with swapped order the last one, decode to the number of that size in two's complement |
| `Pcm.StoreSample` | brutefir/real2raw.cpp:1027-1220 | byte k of the value goes k places behind the position, or with swapped order before the end, and nothing else changes |
| `Pcm.Raw2Real` | brutefir/raw2real.cpp:287-423 | at any spacing every sample of the channel is decoded; other sample sizes change nothing |
| `Pcm.ChannelDecoded` | brutefir/raw2real.cpp:287-423 | sample k of a decoded channel, by the positions of its bytes in the buffer |
| `Pcm.Real2RawNoDither` | brutefir/real2raw.cpp:1020-1222 | every sample of the channel is quantised and encoded, all other bytes stay, and the meters end as count, largest output and largest clipped input of the buffer |
| `Pcm.ChannelEncoded` | brutefir/real2raw.cpp:1020-1222 | sample k of an encoded channel, by the positions of its bytes |
| `Pcm.OutputsMean` | brutefir/real2raw.cpp:1020-1222 | what is encoded there is the quantised sample with the limits of its size |
| `Pcm.OutsideKept` | brutefir/real2raw.cpp:1020-1222 | and every byte of no sample of the channel is what it was |
| `Pcm.SampleRoundTrip` | brutefir/real2raw.cpp:1027-1220 | decoding and encoding a sample without dither gives its bytes back, and it counts as clipped if and only if it is the largest value |
| `Pcm.DecodeEncode` | brutefir/real2raw.cpp:1020-1222 | for a whole buffer every byte is restored, other channels included, and the overflow count grows by exactly the number of samples equal to imax |

## Left out

- FFTW's algorithm, plans, wisdom files and alignment; the transform is the mathematical function its plans compute.
- Floating-point rounding, the float variants of the double loops, and the NaN check that makes `run` return -1 (brutefir/brutefir.cpp:313-321).
- Power-of-two transform sizes: the theorems hold for every size divisible by 8, which includes them.
- Coefficient data is held as values instead of buffers of its own, since nothing writes to it after loading.
- Overflow meters and dither inside `run`: the engine is modelled with float samples in and out, as the host uses it (foo_dsp_bfir/foo_dsp_bfir.cpp:279-286).
- Setting coefficients from a file: reading it is a library's work, and what follows the reading is `SetCoeff`.
- Engine.BruteFir.Run: does not model the wrap of the 32-bit block counter after 2^32 blocks; it requires coefficients for every channel, which the original needs as well.
- `reset` in mid-stream, which keeps the old time buffers (brutefir/brutefir.cpp:346-367).
- The limit of eight channels and the formats' setup tables.
- MixNScale.Entry: the switch over the number of buffers is written inside the loop over entries instead of around it.
- Dither.Dither.DitherBlock: stops at the integers; storing them is what Pcm.StoreSample does for the undithered ones.
- The crossfade and evaluation functions of the convolver, which the engine does not use.
- The preprocessor, equalizer rendering, Kaiser window and sinc taps: what a fractional step's taps are is a parameter.
- Coefficients.GetNextMultiple: does not model the wrap of its 32-bit sum for values above 2^32 less the factor.
- Host.DspBfir.OnChunk: does not model the plug-in's set-up and format changes, nor passing chunks through when no filter is enabled.
- DelayLine.DelayBuffer.constructor: requires an initial delay the allocation has room for; `DelayLine.Sizes` shows for every request whether it has, because the clamp at brutefir/delay.cpp:73 does not act for a positive maximum.
- Strided.Shift: whole samples only; the three-byte branch at brutefir/delay.cpp:462-473 does not step by whole samples.
- Dither.Dither.constructor: the table's bytes are a parameter; the Tausworthe generator is not part of this model. What lies behind the offset map is a parameter too, read when a difference is 255.
- Quantiser.Real2IntNoDither: overflow counts and the largest output are unbounded where the original keeps 32 bits.
- Sample formats with padding bits (a nonzero shift): no format of brutefir/brutefir.cpp:436-535 has any. Floating-point raw formats are copies.
- JSON reals: a real number is the text it was read from. Its conversion to a double is the parser library's work and its formatting the stream library's, so what is written for it is a parameter of the style, with or without trailing zeros removed. The library's refusal of numbers beyond a double's range is not modelled.
- Checks of numeric escapes (`\x` and octal) by the scanner of the parser library; the writer produces neither. The scanner here lets a backslash take the next character along.
- JSON objects kept as maps, wide strings, error positions and stream iterators.
- Interleave.Raw2Cbuf: the plain float format; decoding integers is Pcm.Raw2Real.
- Interleave.Cbuf2Raw: the plain float format without its peak meter; encoding integers is Pcm.Real2RawNoDither, and the dithered branch Dither.Dither.DitherBlock.
