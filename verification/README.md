# Verified models of the rtl-sdr signal path

This project models the stateful, arithmetic-heavy cores of rtl-sdr in Dafny and proves what they keep.
Code that updates arrays and fields in place is modelled by methods on arrays and classes, proved against
functions of the whole input; what the design promises is then proved about those functions. Integer widths,
wrap-around and truncating division of C are written out (`CInts.dfy`); shifts of negative numbers are floor
division. What hardware, libusb, sockets and other threads do is an arbitrary explicit list: the outcomes of accesses
(`Outcomes` in `CInts.dfy`) and the events of an asynchronous read or of the two threads of rtl_tcp.

| files | component |
|---|---|
| `Fft.dfy`, `FftLoops.dfy`, `FftStores.dfy`, `FixFft.dfy`, `FftBound.dfy`, `FftDft.dfy` | the in-place fixed-point FFT of rtl_power |
| `Tuning.dfy`, `Resampler.dfy` | tuning, bandwidth, rate and direct-sampling calls of librtlsdr on an R82xx dongle |
| `AsyncTransfers.dfy` | the life of the USB transfers of an asynchronous read |
| `Adsb.dfy`, `AdsbCells.dfy`, `AdsbFraming.dfy`, `AdsbOuter.dfy`, `AdsbDemod.dfy`, `AdsbRoundTrip.dfy`, `AdsbReceiver.dfy` | the Mode S demodulator (ICAO Annex 10, Volume IV, section 3.1.2.2.5.1) |
| `Getopt.dfy`, `GetoptOptions.dfy`, `GetoptRun.dfy`, `GetoptReparse.dfy` | short options and argument permutation in the bundled getopt |
| `R82xxPll.dfy`, `R82xxShadow.dfy` | PLL words and register cache of the R82xx driver |
| `Decimators.dfy`, `Boxcars.dfy`, `HalfBand.dfy`, `HalfBandRuns.dfy`, `RtlFm.dfy` | the streaming decimators of rtl_fm |
| `TcpQueue.dfy` | the buffer queue of rtl_tcp |
| `Eeprom.dfy`, `EepromBus.dfy`, `EepromDevice.dfy` | the configuration image of rtl_eeprom (string descriptors of USB 2.0, section 9.6.7) and its chip |
| `E4kPll.dfy`, `E4kFilters.dfy` | PLL solver and IF filters of the E4000 driver |

## What the proofs turned up

Properties one would expect and the code does not have; each is proved with its exact condition or a concrete input.

- With a sine table rounded to the nearest, every output of the FFT is within 4 per stage of the discrete Fourier
  transform, except with two bins: the table is then the single entry sin 0, which also serves as the cosine, both
  bins get half of the first sample and the second one is lost (`SpectrumNearIff`, `TwoBins`).
- Half-band decimation: seven passes never leave 16 bits in any run, an eighth does (`RunsFitIff`): whatever the
  histories, full-scale input comes out of it negated from the sixth sample on (`LevelSettles`). rtl_fm -F takes at
  most seven exactly from 7875 Hz on, and has a history for each of its passes exactly from 978 Hz on (`SafeRates`).
  Unlike the two square-window filters a pass depends on how its stream is cut, wherever the cut lies (`CutInvariantIff`); the last sample of every even-length buffer is ignored
  (`LastSampleIgnored`).
- `low_pass` adds up in an int and stores 16 bits: for received samples every output is the sum of its window exactly
  with a factor of at most 255 (`ReceivedSumsIff`); at 3900 Hz it is 257, and full-scale input turns negative
  (`SlowRateWraps`).
- `low_pass_real` divides by zero at its first sample exactly when it is to resample upward (`LowPassRealInPlace`). It
  divides by the truncated ratio of its two rates although a window can hold one sample more; whether a
  stored sample can wrap depends on the rates and on how loud the input is (`ResamplerFitsWithinIff`). The broadcast
  preset is safe (`BroadcastFits`), upper sideband at 24 kHz resampled to 16 kHz is not (`SidebandWraps`).
- The ratio word is zero, and the stored rate a division by zero, for quotients in [2^29, 2^29 + 4) (`ZeroRatio`):
  crystal 28,800,128 Hz with rate 225,001 Hz is accepted and gives one (`ZeroRatioHappens`). The rejected rates are
  exactly those whose ratio would be lost at the nominal crystal (`LimitsAreTight`).
- The demodulation loop of rtl_adsb taken alone runs forever on exactly those 16-bit buffers that take it to a
  stall (`RunsForeverIff`): without tolerated errors, at a quality other than 0 and 5, there is one of every length from
  two samples on, and with any other settings none (`EveryBufferFinishesIff`). A stall needs a sample of 255 near the
  end. What the program receives are sums of two squares, never 255, so there it always finishes (`ReceivedFinishes`).
- Automatic mode gives the tuner frequencies from 24 MHz on, but at the default intermediate frequency no mixer divider
  fits below 24.0865 MHz (`AutomaticTunesServedIff`); at 24 MHz itself the search ends with 128, the PLL is set up for
  that and the divider number, before its correction, says 2 (`LowestTuneNotServed`).
- The number for the mixer divider, corrected for a high fine-tune reading, underflows to 7 in its register exactly
  outside 27.6565 to 884.9995 MHz (`DividerFieldIff`).
- For oscillators below 13 times twice the crystal the R82xx is given an integer part that is 4 or 259 too large
  (`SmallIntegerWraps`).
- The sigma-delta loop of the R82xx divides by a wrapped zero from a 32,768 kHz reference on (`SdmDefinedIff`), as for
  983.041 MHz with that crystal (`SlowestFailure`).
- `r82xx_init` does not look at the result of its initial write and fills the cache all the same. When everything after
  it succeeds, cache and chip agree exactly if each register that neither the initial write nor a later one has reached
  held its initial value before (`Tuner.Run`); a failed last message leaves the last two registers as they were (`StartFails`).
- A generated EEPROM image loses the type byte of an empty string that starts at offset 77, though generation
  reports success (`TypeBytesIff`). Writing an image looks at neither the address write nor the read-back: a result
  of 0 hides a missing byte exactly where the byte compared, stale or from another address, happened to be the one to
  write (`LostIff`), as for two equal bytes when the second one's read fails (`LossHappens`). `rtlsdr_read_eeprom`
  returns 1 where its documentation promises 0 (include/rtl-sdr.h:136-147; the code is followed).
- The E4000 solver stores Z in 8 bits and reports 2^32 - 22 Hz when the fraction underflows; it meets its accuracy
  exactly outside these two cases (`SolvedMeetsIff`), which a 16 MHz crystal meets inside the tuning range
  (`SlowCrystalFails`). The comment that X can reach 65536 is wrong (`LargestPair`).
- A read failure inside `e4k_reg_set_mask` counts as 0xff: bits beside the field change exactly when the read fails, the
  write succeeds, the value is not all ones and one of them was 0 (`NeighboursChangeIff`, `NeighboursChange`), and the
  field stays wrong although 0 is returned exactly when the read fails, the value is all ones and the field was not
  (`FieldMissedIff`).
- `rtlsdr_set_center_freq` returns only the status of the switch when it also switches the input: a failed tune can
  report success exactly when automatic mode changes the input, and does when nothing fails after it
  (`FalseSuccessIff`). A negative direct-sampling mode makes every later tune fail without touching the hardware; a
  switch back to tuner mode resets the intermediate frequency and loses the chosen bandwidth (`Dongle.SetCenterFreq`).
  Setting a rate or bandwidth before the first tune switches an R820T to direct sampling (`Dongle.TunerSetBw`).
- A transfer that lands with anything but COMPLETED is never submitted again, and a buffer that arrives resets the count
  of errors: short of NO_DEVICE a device can still be declared lost exactly while a transfer is in flight and errors and
  transfers in flight are together at least one per transfer (`LosableIff`). After an error and a buffer the stream can dry up, and then nothing ends it but a
  cancellation (`RunsDry`, `DryForever`).
- After an orderly stop, only transfers whose cancellation libusb refused can still be pending; after a lost device
  the status stays CANCELING (`Device.ReadAsync`).
- A Mode S message that lacks its last bit is shown as if that were 0; any other cut message is not (`CutMessage`).
- Read again, a permuted command line means the same unless its last option lacked its argument and a non-option then
  stands behind it (`ReparseIff`).

The driver keeps one limit that its cache needs: a write from below register 5 would shift the cached values
(`LowWriteAgreesIff`), but every write in the driver starts at register 5 or above.

## Model

| member | source | states |
|---|---|---|
| BitReversal.RevSuccessor | src/rtl_power.c:274-278 | subtracting carries from the top takes the reversal of m to that of m + 1, and a zero bit is always found |
| BitReversal.RevInvolution | src/rtl_power.c:278-287 | bit reversal is its own inverse, so the swaps pair up |
| BitReversal.ReorderedAt | src/rtl_power.c:270-288 | splitting into even and odd halves at every level puts sample rev(p) at p |
| FftSpec.TwiddleIndexInRange | src/rtl_power.c:293-297 | every sine table index, the cosine's quarter offset included, stays inside 3/4 of a wave |
| FftStages.PartialStep | src/rtl_power.c:300-312 | one butterfly takes the partly done stage to the next, reading only samples the stage has not written |
| FftRefinement.StagesGiveFft | src/rtl_power.c:289-317 | butterfly stages 1, 2, 4, ... over the bit-reversed input are the recursive even/odd FFT, bit for bit |
| FixFft.NextReversed | src/rtl_power.c:274-278 | the do-while loop finds the top clear bit and yields the next reversed index |
| FixFft.SwappedStep | src/rtl_power.c:279-287 | each pair is swapped once, at its smaller index; the rest is skipped |
| FixFft.Reorder | src/rtl_power.c:270-288 | the reorder loop leaves the bit-reversal permutation and nothing beyond n samples |
| FixFft.ButterflyInPlace | src/rtl_power.c:301-311 | one butterfly in place, with halved operands and wrapping stores, and whether one of these changed its value |
| FixFft.ButterflyLane | src/rtl_power.c:295-312 | the innermost loop does one twiddle's butterflies and no other |
| FixFft.ButterflyStage | src/rtl_power.c:292-315 | one round of the outer loop is one whole stage, and whether all its stores kept their values |
| FixFft.ButterflyStages | src/rtl_power.c:289-317 | the outer loop does the stages 1, 2, 4, ... in order |
| FixFft.Transform | src/rtl_power.c:262-318 | fix_fft is the recursive FFT on its first 2^m samples for every input and sine table, and some store wraps exactly when one of the recursion does; too large a size is refused without a change |
| FftBound.FixMpyRounds | src/rtl_power.c:254-260 | FIX_MPY is the Q15 product rounded to the nearest, halves upward |
| FftBound.FftModulus | src/rtl_power.c:289-317 | k stages raise the largest complex modulus by at most 4k |
| FftStores.StagesFitIff | src/rtl_power.c:301-311 | the stores of the in-place stages hold their values exactly when those of the recursive butterflies do |
| FftBound.FftNeverWraps | src/rtl_power.c:302-311 | inputs of modulus up to 32767 - 4k pass k stages without one 16-bit wrap anywhere |
| FftBound.FftAccurate | src/rtl_power.c:254-318 | for every table the result is within 3k of the exact halving FFT over the reals with the same twiddles |
| FftDft.SumSplits | src/rtl_power.c:289-317 | the transform sum is that of the even samples plus a power of the root times that of the odd ones |
| FftDft.DftStep | src/rtl_power.c:289-317 | lanes p and p + l of the discrete Fourier transform are the two outputs of an exact butterfly |
| FftDft.TwiddleNear | src/rtl_power.c:246-300 | a rounded and halved table entry is within 1.57 of 16384 times the power of the root |
| FftDft.FftIsDft | src/rtl_power.c:238-318 | with the rounded sine table of four or more entries to a wave every output is within 4k of the discrete Fourier transform over 2^k |
| FftDft.TwoBins | src/rtl_power.c:246-311 | with two bins both outputs are half of the first sample |
| FftDft.SpectrumNearIff | src/rtl_power.c:238-318 | a transform over the whole wave is near the discrete Fourier transform for all inputs exactly unless there are two bins |
| Resampler.ExtensionExact | src/librtlsdr.c:1130-1133 | the bit-27 extension restores the ratio, rounded to a multiple of 4, exactly for two ranges of quotients |
| Resampler.LimitsAreTight | src/librtlsdr.c:1123-1133 | at the nominal crystal the accepted rates up to 3.2 MHz are exactly those whose ratio survives |
| Resampler.AcceptedQuotients | src/librtlsdr.c:1123-1131 | where the quotients of accepted rates lie for every permitted crystal |
| Resampler.ZeroRatio | src/librtlsdr.c:1130-1134 | the divisor of the real rate is zero exactly for four quotients |
| Resampler.ZeroRatioHappens | src/librtlsdr.c:1124-1134 | an accepted rate and a permitted crystal that divide by zero |
| Resampler.RateIsExactIff | src/librtlsdr.c:1130-1139 | for every permitted crystal and accepted rate, the stored rate is the requested one exactly when the quotient survives the word |
| Resampler.NominalRateKept | src/librtlsdr.c:1124-1139 | at the nominal crystal every accepted rate is stored unchanged, so setting it again changes nothing |
| Tuning.PassbandCovers | src/tuner_r82xx.c:1089-1118 | the filters that the register selects are the narrowest that cover the request and keep its upper edge in place |
| Tuning.BandAboveZeroIff | src/tuner_r82xx.c:1072-1088 | the band lies above zero exactly up to 9.14 MHz; the fixed settings for 6, 7 and 8 MHz |
| Tuning.NarrowestIff | src/librtlsdr.c:1043-1043 | the request passes through a C int: the narrowest filters serve it up to 350 kHz and from 2^31 Hz on |
| Tuning.SearchLowPass | src/tuner_r82xx.c:1108-1113 | the loop finds the last filter that is wide enough |
| Tuning.Dongle.SameLoIff | src/tuner_r82xx.c:1169-1175 | two frequencies share an LO exactly when an upconverting dongle takes the one up by 28.8 MHz to the other |
| Tuning.Dongle.FalseSuccessIff | src/librtlsdr.c:887-929 | a failed tune can return success exactly when automatic mode also switches the input; with no failure after it, it does |
| Tuning.Dongle.SetCenterFreq | src/librtlsdr.c:887-929 | result, input, stored frequency and accesses of one call as a function of their outcomes; IF, LO and nested tunes |
| Tuning.Dongle.SwitchDirectSampling | src/librtlsdr.c:1207-1268 | the same for a switch; after one without failures the input, IF and LO agree with the stored frequency; the recursion ends |
| Tuning.Dongle.TunerSetFreq | src/tuner_r82xx.c:1152-1187 | the LO is the upconverted frequency plus the intermediate one, in 32 bits |
| Tuning.Dongle.TunerInit | src/tuner_r82xx.c:825-825 | initialising the tuner resets its intermediate frequency to 3.57 MHz |
| Tuning.Dongle.SetBandwidth | src/tuner_r82xx.c:1064-1129 | the bandwidth fixes the intermediate frequency, whether or not the registers were written, and the filter register on success |
| Tuning.Dongle.TunerSetBw | src/librtlsdr.c:243-254 | a bandwidth change programs filters and IF for it and retunes to the stored frequency |
| Tuning.Dongle.SetTunerBandwidth | src/librtlsdr.c:1034-1050 | the bandwidth asked for, or the rate for 0, decides filters and IF unless the call switches back to tuner mode; tuning stays consistent, and it is stored only on success |
| Tuning.Dongle.SetSampleRate | src/librtlsdr.c:1113-1163 | rejects without a change, else programs the ratio word and the correction, stores the rate that the word selects, and sets filters and IF for the stored bandwidth or the new rate |
| Tuning.Dongle.SetFreqCorrection | src/librtlsdr.c:939-962 | a new correction is stored and programmed and the dongle retuned; the old one is refused without a change |
| Tuning.Dongle.SetXtalFreq | src/librtlsdr.c:729-765 | which crystals are refused or stored; the ratio word follows the one, a retune the other, and the tuning stays consistent |
| Tuning.Dongle.SetDirectSampling | src/librtlsdr.c:1200-1205 | remembers the user's mode and makes it the one in force |
| Tuning.Dongle.Run | src/librtlsdr.c:729-1268 | over every sequence of calls: automatic mode is direct sampling exactly below 24 MHz on the R820T, and without failures the fields are the latest settings and IF, LO and correction always match them |
| AsyncTransfers.Device.CancelAsync | src/librtlsdr.c:2042-2062 | cancelling acts only while running |
| AsyncTransfers.Device.Callback | src/librtlsdr.c:1779-1805 | a transfer is in flight again exactly if it was COMPLETED and its resubmission accepted; the count of errors; the device is lost exactly on NO_DEVICE or too many errors, and a running stream is then cancelled |
| AsyncTransfers.Device.HandleEvents | src/librtlsdr.c:1779-1805 | the stream after any list of landings and requests |
| AsyncTransfers.InFlightIff | src/librtlsdr.c:1779-1805 | a transfer is in flight after any events exactly if it was before and each of its landings was COMPLETED and accepted again |
| AsyncTransfers.CancelingIff | src/librtlsdr.c:1779-2062 | a running stream is being cancelled after any events exactly if one of them asked for it or the device was lost |
| AsyncTransfers.LosableIff | src/librtlsdr.c:1788-1804 | short of NO_DEVICE some events can lose the device exactly while a transfer is in flight and with the errors they are at least one per transfer |
| AsyncTransfers.RunsDry | src/librtlsdr.c:1782-1804 | an error, a buffer and an error leave a running stream of two without a transfer |
| AsyncTransfers.DryForever | src/librtlsdr.c:1782-1804 | such a stream stays as it is until somebody cancels |
| AsyncTransfers.Device.SubmitAll | src/librtlsdr.c:1963-1984 | the transfers up to the first refused one are in flight; the stream is cancelled exactly if there is one |
| AsyncTransfers.Device.CancelPass | src/librtlsdr.c:1997-2022 | the stream and the next state after a pass, as the answers and events decide |
| AsyncTransfers.PassRefused | src/librtlsdr.c:1997-2022 | a pass that accepts no cancellation leaves in flight only transfers whose cancellation was refused |
| AsyncTransfers.StreamingGoesOn | src/librtlsdr.c:1986-2033 | while every buffer is complete and taken back and nobody cancels, the loop runs on with as many transfers in flight |
| AsyncTransfers.CancelEnds | src/librtlsdr.c:1986-2033 | if libusb cancels what it holds, a cancelled stream ends within two rounds and nothing stays pending |
| AsyncTransfers.StoppedPending | src/librtlsdr.c:1986-2033 | how the loop can end, and that after a stop a pending transfer had its cancellation refused in the last round and has not landed since |
| AsyncTransfers.Device.ReadAsync | src/librtlsdr.c:1930-2040 | exit, pending transfers and final state as a function of submissions and rounds; an orderly stop frees no buffer that libusb holds unless it refused the cancellation |
| AdsbCells.PreambleMeaning | src/rtl_adsb.c:238-262 | the running comparison accepts exactly sixteen samples whose pulses top their neighbouring gaps |
| AdsbCells.CellDecodes | src/rtl_adsb.c:187-226 | well separated samples decode to their bit at every quality |
| AdsbCells.RejectedIff | src/rtl_adsb.c:187-226 | exactly which cells of any four samples each quality rejects |
| AdsbCells.RunBreaksIff | src/rtl_adsb.c:286-307 | a run breaks exactly if more cells are rejected than errors allowed, and at the first one too many; else it reads every cell |
| AdsbCells.RunBits | src/rtl_adsb.c:290-306 | every cell read gives its own bit, tolerated or not |
| AdsbDemod.Preamble | src/rtl_adsb.c:238-262 | the loop decides the preamble predicate |
| AdsbDemod.FindPreamble | src/rtl_adsb.c:275-285 | the search marks the first preamble and changes nothing else |
| AdsbDemod.MarkCell | src/rtl_adsb.c:290-306 | one Manchester cell is decoded over samples already read, at every error limit |
| AdsbDemod.MarkBits | src/rtl_adsb.c:286-307 | the bits of a message are compacted to its start; the write cursor never passes the read cursor |
| AdsbOuter.PassAdvances | src/rtl_adsb.c:274-308 | with a tolerated error every pass of the outer loop advances |
| AdsbOuter.StandsStillIff | src/rtl_adsb.c:274-308 | a pass stands still exactly without a tolerated error, when no search is left and the first cell is bad |
| AdsbOuter.MovesWithinThree | src/rtl_adsb.c:274-308 | unless it stalls, the loop moves on within three passes |
| AdsbOuter.RunsForeverIff | src/rtl_adsb.c:264-309 | for every 16-bit buffer the loop runs forever exactly when it comes to a stall |
| AdsbOuter.EveryBufferFinishesIff | src/rtl_adsb.c:187-309 | every buffer of a length is finished exactly with a tolerated error, at quality 0 or 5, or with fewer than two samples |
| AdsbOuter.CleanFinishes | src/rtl_adsb.c:264-309 | a buffer without 255 among its last fifteen samples is finished with any settings |
| AdsbReceiver.NeverBadSample | src/rtl_adsb.c:164-185 | no magnitude is 255 |
| AdsbReceiver.MagnitudeIs | src/rtl_adsb.c:156-185 | a magnitude is the squared distance of its sample from (127, 127) |
| AdsbReceiver.ReceivedFinishes | src/rtl_adsb.c:175-309 | whatever bytes are received and whatever the settings, the demodulator finishes |
| AdsbReceiver.SquaresPrecompute | src/rtl_adsb.c:156-173 | the table of squares |
| AdsbReceiver.MagnitudeInPlace | src/rtl_adsb.c:175-185 | pairs of bytes become magnitudes in the same place |
| AdsbReceiver.Receive | src/rtl_adsb.c:352-363 | one received buffer is finished with any settings, and the first frames shown are the messages transmitted in it, in order; with silence behind them, all of them |
| AdsbDemod.PassEnd | src/rtl_adsb.c:274-308 | what a pass writes is final and what it has not read is untouched |
| AdsbDemod.Manchester | src/rtl_adsb.c:264-309 | on every buffer and with any settings it does not run forever on, the in-place demodulator leaves the demodulation of the original samples |
| AdsbDemod.CollectFrame | src/rtl_adsb.c:318-336 | the inner loop gathers one frame and decides its length from the first byte |
| AdsbDemod.Messages | src/rtl_adsb.c:311-342 | the frames passed on are those of the whole buffer; for every list of messages laid out between markers, exactly their bytes and lengths in order |
| AdsbRoundTrip.MessagePass | src/rtl_adsb.c:274-308 | a turn that meets a preamble leaves the samples before it, markers, the message, what else its run decodes, and the rest untouched |
| AdsbRoundTrip.MessageDecodes | src/rtl_adsb.c:286-307 | the bits of an encoded message are a prefix of what is decoded behind its preamble |
| AdsbFraming.FramesStep | src/rtl_adsb.c:311-342 | a message is shown byte for byte and the sample behind it is skipped |
| AdsbFraming.AllFrames | src/rtl_adsb.c:311-342 | messages between markers are all the frames, in order |
| AdsbFraming.CutMessage | src/rtl_adsb.c:337-341 | a cut message is shown exactly if only its last bit is missing |
| AdsbFraming.EmptyByte | src/rtl_adsb.c:325-328 | eight zero bits are dropped and the framer starts again behind them |
| AdsbFraming.StrayBits | src/rtl_adsb.c:318-338 | fewer than 55 stray bits never make a frame |
| AdsbRoundTrip.TransmissionShows | src/rtl_adsb.c:264-342 | the message of a transmission is the next frame, and the only one up to where its run ended soon enough |
| AdsbRoundTrip.RoundTrip | src/rtl_adsb.c:187-342 | any list of encoded messages, each behind a preamble and after the run of the one before has broken, are the first frames shown, for every quality and whatever follows, and all frames if nothing does; without a tolerated error when their first cells decode and the loop ends |
| GetoptSpec.ParseKeepsAll | src/getopt/getopt.c:547-622 | options and non-options are a permutation of the arguments |
| GetoptSpec.NonOptionsAreNot | src/getopt/getopt.c:540-575 | unless `--` ends the options, everything sorted to the end is a non-option |
| GetoptOptions.KindIs | src/getopt/getopt.c:779-967 | in an option string of any entries the first entry of a character says by its colons what option it is; a leading colon turns the code for a missing argument into a colon |
| GetoptOptions.CharacterMeaning | src/getopt/getopt.c:778-967 | what each option character makes of the rest of its element and of the next one |
| GetoptOptions.ElementMeaning | src/getopt/getopt.c:555-967 | the meaning of each element of a line: a non-option, the end of options, or options with arguments as the option string says |
| GetoptRun.RotatedExchanges | src/getopt/getopt.c:302-374 | the rotation is the two segments in the other order |
| GetoptRun.RotateInPlace | src/getopt/getopt.c:338-374 | swapping the shorter segment with the far end of the longer, repeatedly, is that rotation |
| GetoptRun.ExchangeSorts | src/getopt/getopt.c:558-566 | exchanging moves the options processed since in front of the non-options skipped before |
| GetoptRun.CharSteps | src/getopt/getopt.c:776-972 | reading one option character, with or without an argument, keeps the meaning of the whole line |
| GetoptRun.DashDashEnds | src/getopt/getopt.c:581-592 | `--` counts as an option and everything behind it as a non-option, as XBD section 12.2 of POSIX.1 demands |
| GetoptRun.Scanner.Exchange | src/getopt/getopt.c:302-380 | exchange is exactly the rotation, and the segment records move with it |
| GetoptRun.Scanner.SkipNonOptions | src/getopt/getopt.c:568-573 | non-options are skipped and recorded, and only those |
| GetoptRun.Scanner.EndOfOptions | src/getopt/getopt.c:581-592 | `--` ends the scan with the line sorted |
| GetoptRun.Scanner.Advance | src/getopt/getopt.c:547-622 | moving to the next element keeps the argv segments or ends the scan |
| GetoptRun.Scanner.DecodeChar | src/getopt/getopt.c:778-972 | the code, its argument and the elements consumed by one option character |
| GetoptRun.Scanner.Call | src/getopt/getopt.c:547-972 | every call returns the next option, makes progress and keeps the segments |
| GetoptRun.Run | src/getopt/getopt.c:302-972 | a whole run returns the options and arguments of the line as `ElementMeaning` reads it, and ends with the program name, the options with their arguments in order, then the non-options in order, and optind at the first of these |
| GetoptReparse.ReparseIff | src/getopt/getopt.c:547-972 | sorting is idempotent in meaning exactly unless an option left without its argument finds one among the non-options |
| R82xxPll.SdmAccurate | src/tuner_r82xx.c:526-535 | below a 32,768 kHz reference the loop ends within 15 rounds, its word fits 16 bits and is worth the fraction within 15 kHz |
| R82xxPll.SdmLeaves | src/tuner_r82xx.c:526-535 | no fraction is used up to nothing, and only the last of 15 rounds leaves more than 1 kHz |
| R82xxPll.SdmEnds | src/tuner_r82xx.c:526-535 | for any fraction at all it ends below that reference with a word of at most 16 bits |
| R82xxPll.SdmDefinedIff | src/tuner_r82xx.c:526-535 | it divides only by nonzero denominators for all fractions exactly below that reference |
| R82xxPll.SdmDiverges | src/tuner_r82xx.c:527-535 | from that reference on a fraction of 2 kHz never ends before the denominator wraps |
| R82xxPll.SlowestFailure | src/tuner_r82xx.c:446-535 | a frequency whose fraction with that crystal is 2 kHz |
| R82xxPll.Round | src/tuner_r82xx.c:528-534 | one round keeps the sum of word and remaining contribution |
| R82xxPll.SdmCalculator | src/tuner_r82xx.c:526-535 | the loop computes the word in 16-bit arithmetic |
| R82xxPll.DividerFoundIff | src/tuner_r82xx.c:468-480 | for every frequency the search finds a mixer divider exactly from 27.6565 to 1769.9995 MHz, the only one that fits, and ends with 128 elsewhere |
| R82xxPll.MixDivider | src/tuner_r82xx.c:468-480 | the loop finds it and counts its halvings |
| R82xxPll.IntegerPartKept | src/tuner_r82xx.c:509-512 | splitting the integer part into two fields of one byte loses nothing |
| R82xxPll.SmallIntegerWraps | src/tuner_r82xx.c:509-512 | below 13 the register stands for 4 more, or for 259 more below 10 |
| R82xxPll.VcoBounds | src/tuner_r82xx.c:500-510 | the integer part fits its fields for all frequencies with a divider |
| R82xxPll.DividerFieldIff | src/tuner_r82xx.c:468-496 | for every frequency and reading the field written to register 0x10 stands for the divider found, half of it or twice of it, or is 7 exactly when the number 0 is lowered |
| R82xxPll.PllWords | src/tuner_r82xx.c:447-542 | for every frequency all words, or a refusal exactly for too large an integer part; whenever that part fits its fields they select an oscillator within 17 kHz of the intended one, which holds for all frequencies with a divider |
| TunerReach.TuneServedIff | src/tuner_r82xx.c:1152-1187 | a tune finds a divider exactly for oscillator frequencies in that range |
| TunerReach.AutomaticTunesServedIff | src/librtlsdr.c:887-929 | which of the frequencies that automatic mode gives the tuner are served |
| TunerReach.LowestTuneNotServed | src/tuner_r82xx.c:447-512 | the lowest of them is not |
| R82xxShadow.OverlaySplits | src/tuner_r82xx.c:264-288 | splitting a write into messages is invisible to the chip |
| R82xxShadow.LowWriteAgreesIff | src/tuner_r82xx.c:239-254 | a write from below register 5 keeps the cache right exactly when its values repeat at the distance to 5 |
| R82xxShadow.LowWriteDisagrees | src/tuner_r82xx.c:244-253 | two values from register 4 on leave the cache wrong |
| R82xxShadow.MaskedBits | src/tuner_r82xx.c:308-319 | a masked write changes exactly the masked bits |
| R82xxShadow.DeliverIff | src/tuner_r82xx.c:264-288 | a write succeeds exactly if each of its messages does; else the whole messages in front of the first failing one have been sent |
| R82xxShadow.MessagesCover | src/tuner_r82xx.c:264-269 | how many messages a write takes |
| R82xxShadow.Tuner.StoreShadow | src/tuner_r82xx.c:239-254 | the cache after a store, with both ends cut off |
| R82xxShadow.Tuner.Write | src/tuner_r82xx.c:256-291 | as the outcomes of its messages decide, the chip receives the sent prefix, the cache all of it, and both agree on success from register 5 on |
| R82xxShadow.Tuner.WriteMask | src/tuner_r82xx.c:308-319 | the cached register takes the masked bits, the chip too if the message comes through, and that is the result; outside the cache nothing happens |
| R82xxShadow.StartAgreesIff | src/tuner_r82xx.c:1436-1440 | after the initial write and the filling of the cache both agree exactly when each register not reached already held its value |
| R82xxShadow.StartFails | src/tuner_r82xx.c:1436-1438 | five messages of which the last one fails |
| R82xxShadow.Tuner.Init | src/tuner_r82xx.c:1436-1438 | chip, cache and their agreement after the initial write, whose result is not looked at |
| R82xxShadow.FollowedAgreesIff | src/tuner_r82xx.c:239-319 | successful writes make the registers they touch agree and leave all others as they were |
| R82xxShadow.Tuner.Run | src/tuner_r82xx.c:239-1447 | after initialisation and any successful plain and masked writes to shadowed registers cache and chip agree exactly when each register reached by none of these writes already held its initial value; with no failure the cache is the initial array with all writes applied |
| DecimatorSpec.LowPassSums | src/rtl_fm.c:305-325 | output k of low_pass is the 16-bit wrap of the sum of the k-th window, and the remainder waits |
| DecimatorSpec.LowPassExactIff | src/rtl_fm.c:309-322 | for samples from lo to hi every output is the sum itself exactly when the loudest window fits 16 bits |
| DecimatorSpec.ReceivedSumsIff | src/rtl_fm.c:309-322 | for received samples exactly with a factor of at most 255 |
| DecimatorSpec.SlowRateWraps | src/rtl_fm.c:863-863 | the factor for 3900 Hz, and the wrapped sum it gives |
| DecimatorSpec.LowPassChunkInvariant | src/rtl_fm.c:305-325 | however a stream is cut into buffers, low_pass gives the outputs of one call on the whole |
| DecimatorSpec.AccumulatorBounded | src/rtl_fm.c:310-322 | the running sums stay within their number of 16-bit samples |
| DecimatorSpec.LowPassRealChunkInvariant | src/rtl_fm.c:343-363 | the same for low_pass_real |
| DecimatorSpec.LowPassRealCount | src/rtl_fm.c:350-361 | it emits exactly floor((phase + n * slow) / fast) samples and keeps the remainder as phase |
| DecimatorSpec.LowPassRealAverages | src/rtl_fm.c:350-361 | from rest output k is the sum of the samples that take the phase from k to k + 1 times the input rate, divided by the truncated ratio |
| DecimatorSpec.ResamplerFitsWithinIff | src/rtl_fm.c:351-359 | for samples from lo to hi no store wraps exactly when the longest window of the loudest sample fits after the division |
| DecimatorSpec.ResamplerFitsIff | src/rtl_fm.c:351-359 | for all samples exactly when the rates divide or differ by more than 2^15 |
| DecimatorSpec.BroadcastFits | src/rtl_fm.c:1149-1162 | the broadcast preset never wraps, its samples being within 2^14 |
| DecimatorSpec.SidebandWraps | src/rtl_fm.c:566-576 | constant samples of 65 in upper sideband at 24 kHz, resampled to 16 kHz, do |
| Boxcars.SquareWindow.LowPassInPlace | src/rtl_fm.c:305-325 | the in-place loop is low_pass of the whole buffer; nothing is overwritten before it is read |
| Boxcars.Resampler.LowPassRealInPlace | src/rtl_fm.c:343-363 | the in-place loop is low_pass_real of the whole buffer, or divides by zero at the first sample exactly when resampling upward |
| HalfBandSpec.LastSampleIgnored | src/rtl_fm.c:379-393 | the last sample of an even number reaches neither output nor history |
| HalfBandSpec.CutInvariantIff | src/rtl_fm.c:365-394 | two buffers give the outputs of one for all samples exactly when the second is empty |
| HalfBandSpec.LastSampleArchived | src/rtl_fm.c:379-393 | that of an odd number is archived |
| HalfBandSpec.ImpulseResponse | src/rtl_fm.c:375-385 | a single sample comes out with the weights 1, 5, 10, 10, 5, 1 as the window slides over it |
| HalfBandSpec.CarriesOver | src/rtl_fm.c:368-393 | the next buffer starts from the last five samples used |
| HalfBandSpec.HalfBandWithin | src/rtl_fm.c:377-385 | a pass at most doubles the range and its stores do not wrap |
| HalfBandSpec.LevelWithin | src/rtl_fm.c:738-743 | up to seven passes keep level i within 128 * 2^i |
| HalfBandRuns.RunsFitIff | src/rtl_fm.c:737-743 | from rest and for every run of received buffers no pass wraps exactly with at most seven |
| HalfBandRuns.LevelSettles | src/rtl_fm.c:738-743 | from any histories full-scale input comes out amplified by 2^i from the sixth sample on, and negated at the eighth pass |
| HalfBandRuns.SafeRates | src/rtl_fm.c:863-867 | for which rates -F takes at most seven passes, and at most the ten there are histories for |
| HalfBandSpec.ArchivedWithin | src/rtl_fm.c:386-393 | the histories stay in the range of their pass |
| RtlFm.NextOutput | src/rtl_fm.c:378-385 | the window slides by two samples that no store has reached |
| RtlFm.FifthOrder | src/rtl_fm.c:365-394 | one pass in place: the channel becomes its 1,5,10,10,5,1 window sums over history and samples, the other channel stays, the last window is archived |
| RtlFm.Demod.Cascade | src/rtl_fm.c:737-743 | after all passes each channel is the iterated half-band of its own samples alone |
| RtlFm.Demod.Load | src/rtl_fm.c:800-804 | bytes become samples from -127 to 128 |
| RtlFm.Demod.Demodulate | src/rtl_fm.c:737-804 | each channel of the output is the iterated half-band of that channel of the bytes received |
| RtlFm.Demod.Run | src/rtl_fm.c:737-804 | for any number of buffers every output is that of its buffer and of the histories that the buffers before it left, and none leaves 128 * 2^pass |
| TcpQueue.OrderedDrop | src/rtl_tcp.c:177-184 | dropping the head loses the oldest buffer and no other |
| TcpQueue.OrderedTake | src/rtl_tcp.c:226-228 | taking the queue appends its buffers to those taken, in production order |
| TcpQueue.SendConsistent | src/rtl_tcp.c:230-255 | partial sends conserve bytes: sent and unsent together are the taken buffers |
| TcpQueue.Server.Callback | src/rtl_tcp.c:155-198 | a buffer is appended; the oldest is lost exactly when the queue holds llbuf_num + 3 and that is two or more |
| TcpQueue.Server.Enqueue | src/rtl_tcp.c:166-186 | the walk over the linked list, unlinking and appending |
| TcpQueue.Server.TakeAll | src/rtl_tcp.c:226-228 | the worker takes the whole list |
| TcpQueue.Server.SendSome | src/rtl_tcp.c:231-254 | any number of accepted bytes moves the cursor and, at the end of a buffer, the list |
| TcpQueue.Server.Step | src/rtl_tcp.c:155-256 | what each event of the two threads does to queue, history and exit flag |
| TcpQueue.Server.Run | src/rtl_tcp.c:155-256 | for every interleaving: every buffer that arrives before a stop is produced, a worker with nothing in hand has sent all it took, the client gets a prefix of the taken buffers in production order, every buffer is taken, dropped or queued and only once; with a limit of -1 or above, other than 0, the length is bounded although the test is an equality, and with any other nothing is ever dropped |
| EepromImage.RoundTrip | src/rtl_eeprom.c:132-175 | parsing a generated image gives the configuration back, although byte 78 is overwritten |
| EepromImage.ImageBytes | src/rtl_eeprom.c:152-175 | the generated image byte by byte |
| EepromImage.ImageHighBytes | src/rtl_eeprom.c:119-125 | every character has a zero high byte |
| EepromImage.HeaderCountsIff | src/rtl_eeprom.c:132-144 | which changes of a header byte the parser notices |
| EepromImage.CapacityIff | src/rtl_eeprom.c:116-125 | what fits: 34 characters in the first string, 33 in two, 32 in all |
| EepromImage.EvenByteFree | src/rtl_eeprom.c:172-172 | characters lie at odd offsets only |
| EepromImage.TypeBytesIff | src/rtl_eeprom.c:116-172 | all three descriptors keep their type exactly when none starts at 77 |
| RtlEeprom.SetStringDescriptor | src/rtl_eeprom.c:109-130 | a descriptor is written exactly when the string fits, else -1 |
| RtlEeprom.GetStringDescriptor | src/rtl_eeprom.c:92-107 | the characters and the end of a descriptor, whatever its type |
| RtlEeprom.Config.Parse | src/rtl_eeprom.c:132-150 | every field of the configuration from the image |
| RtlEeprom.Config.Generate | src/rtl_eeprom.c:152-175 | the image, or a negative result exactly when a string does not fit |
| EepromBus.WriteKeeps | src/librtlsdr.c:835-857 | whatever fails, no byte outside the range changes and none gets a third value |
| EepromBus.LostIff | src/librtlsdr.c:835-859 | a result of 0 hides a missing byte exactly where the byte compared was the one to write |
| EepromBus.HeardWrites | src/librtlsdr.c:835-859 | when every address write and read comes through, 0 means that the range holds the data |
| EepromBus.HeardCycles | src/librtlsdr.c:840-846 | and only bytes that differ were rewritten |
| EepromBus.LossHappens | src/librtlsdr.c:835-859 | two equal bytes of which the second is lost |
| EepromDevice.Chip.WriteTurn | src/librtlsdr.c:836-849 | one byte is selected, read back, compared and, if it differs, written |
| EepromDevice.Chip.WriteEeprom | src/librtlsdr.c:824-860 | error codes, and chip and result as a function of the outcome of every transfer |
| EepromDevice.Chip.ReadEeprom | src/librtlsdr.c:862-885 | error codes, success exactly when every transfer succeeds, and the bytes read back from the range |
| EepromDevice.WriteThenRead | src/librtlsdr.c:824-885 | both results; data written without a silent failure and then read successfully comes back as written |
| EepromDevice.HalfSuffices | src/rtl_eeprom.c:412-412 | the 128 bytes that are written carry the whole configuration |
| EepromDevice.Reprogram | src/rtl_eeprom.c:395-412 | the image is generated and its first half written, or nothing if a string does not fit; the chip then parses to the configuration and keeps its second half, unless a transfer failed silently |
| E4kPll.OscillatorRange | src/tuner_e4k.c:361-372 | the divider table keeps the oscillator between 2.4 and 4.8 GHz |
| E4kPll.LargestPair | src/tuner_e4k.c:509-518 | X fits 16 bits and (Z, X) is the largest pair not above the intended oscillator |
| E4kPll.FvcoClose | src/tuner_e4k.c:418-440 | integer arithmetic loses at most one step of the fraction |
| E4kPll.FvcoFloors | src/tuner_e4k.c:418-440 | the computed oscillator is the exact one of the two words, cut to whole hertz |
| E4kPll.ZeroIff | src/tuner_e4k.c:442-449 | the error value appears exactly when not even the smallest fraction fits |
| E4kPll.MeetsPerHertz | src/tuner_e4k.c:483-533 | the accuracy as a bound in hertz: (fosc / 65536 + 1) / R + 1 |
| E4kPll.SolvedMeetsIff | src/tuner_e4k.c:483-533 | for every crystal and frequency the accuracy is met exactly when Z fits 8 bits and the oscillator is not zero |
| E4kPll.ZFitsTuningRange | src/tuner_e4k.c:508-509 | above 18.75 MHz Z fits up to 2.2 GHz |
| E4kPll.SlowCrystalFails | src/tuner_e4k.c:486-533 | 16 MHz and 1.1 GHz miss it |
| E4kPll.FindRow | src/tuner_e4k.c:496-503 | the loop finds the first row above the frequency |
| E4kPll.WordSelectsDivider | src/tuner_e4k.c:361-372 | the synthesizer word written selects, in its mixing mode, the multiplier that the oscillator was computed with |
| E4kPll.Divider | src/tuner_e4k.c:496-503 | divider, register word and mixing mode of that row; the default above the table |
| E4kPll.ComputePllParams | src/tuner_e4k.c:483-533 | all parameters of the solution; three-phase mixing exactly below 350 MHz |
| E4kFilters.ClosestIndex | src/tuner_e4k.c:167-183 | the first of the nearest entries |
| E4kFilters.FieldRoundTrip | src/tuner_e4k.c:101-148 | a written field reads back and the bits beside it stay |
| E4kFilters.FieldPlaces | src/tuner_e4k.c:265-275 | the numbers that the three fields hold in their registers |
| E4kFilters.FieldsDisjoint | src/tuner_e4k.c:265-275 | the two fields of one register do not disturb each other |
| E4kFilters.NeighboursChangeIff | src/tuner_e4k.c:101-110 | after which outcomes bits beside the field change |
| E4kFilters.FieldMissedIff | src/tuner_e4k.c:101-110 | after which outcomes 0 is returned for a field that is wrong |
| E4kFilters.NeighboursChange | src/tuner_e4k.c:101-110 | a register, field and failure that set bits beside the field |
| E4kFilters.E4k.RegSetMask | src/tuner_e4k.c:101-110 | register, result and accesses as a function of the two outcomes |
| E4kFilters.E4k.FilterSet | src/tuner_e4k.c:292-306 | the filter gets the first of the nearest bandwidths; the other filters, the disable bit and all other registers stay |
| E4kFilters.E4k.FilterGet | src/tuner_e4k.c:319-337 | reading returns the bandwidth in force |

## Left out

- AsyncTransfers.Device.ReadAsync: observes a given list of event rounds, because libusb may never deliver the completion that
  ends the loop; the user's callback and the data in the buffers are not modelled.
- Tuning.Dongle.Access: stands for a group of register writes that fail or succeed together.
- Tuning.Dongle.SetFreqCorrection: the correction programmed is kept in parts per million; the register word for it and the
  corrected crystal frequency are not part of the state.
- R82xxPll.PllWords: needs a crystal above zero and below 32,767.5 kHz, from which on the word is not defined; the fine-tune
  reading is a parameter, and the register writes between the words are left out.
- AdsbDemod.Manchester: is called only where it ends; for the others `RunsForeverIff` says that the loop does not.
- FixFft.Transform: works on the whole array where the source also passes an offset into it.
- RtlFm.FifthOrder: takes the start and end of the channel where the source passes an address and a length.
- RtlFm.Demod.Cascade: needs one sample pair at every pass, which USB buffers of whole 512-byte packets give, and at most the
  ten passes there are histories for; shorter buffers would read stale samples.
- TcpQueue.Server.Callback: needs an llbuf_num other than -2, with which the only element would be freed before the append.
- DecimatorSpec.LowPassRealCount: is stated for resampling downward, like all of `LowPassReal`; the other case never gets past
  its first sample.
- EepromDevice.Chip.WriteByte: assumes that a failed write leaves the byte unchanged.
- RtlEeprom.Config.Parse: needs descriptors that end inside the image, as the source does.
- RtlEeprom.GetStringDescriptor: needs that of its one descriptor.
- FftDft.FftIsDft: takes the root of unity and its powers as given; that sines exist and that `sin` of the C library is
  close enough to be rounded correctly is not shown.
- GetoptRun.Run: short options in permuting order; the user resetting optind, `W;`, long options and the other orderings add
  cases without a harder invariant.
- Double arithmetic of the resampler is exact integer division, which its magnitudes allow.
- Sine table values, windows, demodulators, squelch, droop compensation and gain tables: floating point or data.
- `display` of rtl_adsb: which of the frames is printed.
- Allocation of USB buffers, pthread primitives, sockets, signals and files: environment.
- FC0012, FC0013, FC2580 tuners, offset tuning and fixed register scripts: data or easy members.
- PLL lock, calibration and other analogue behaviour.
