# Models of the sound chips, the serial disk server and the scaler

This project models three independent parts of the repository and proves properties of them with Dafny 4.11;
`dafny verify dfyconfig.toml` checks everything.

## The FM chips

`rtl/sound/jtopl/doc/opll.c` emulates the YM2413 one clock at a time. Its envelope timer and AM counter are
bit-serial: a register rotates by one place per clock while an adder with a kept carry works on the bit that passes.
`SerialAdder` proves that a full turn is addition, `OpllTimer` and `OpllLfo` that the two counters are plain
arithmetic at every sample boundary, and, since `opl3.c` computes the same quantities directly, that the serial
hardware agrees with the direct formulas (`Opl3Timing`). `OpllEnvelope` treats the eighteen slots moving through the
pipeline and `OpllSpeed` how fast they move, against the OPL3's rates; `OpllChip` holds the objects that update all of
this in place, cut into one object per section of the chip's record.

`opl3.c` adds the envelope state machine of one slot (`Opl3Envelope`) and the speed its rates amount to (`Opl3Rate`)
and what the registers make of it (`Opl3Speed`), the attenuation-to-amplitude conversion, the eight waveforms,
feedback and the mix (`Opl3Rom`, `Opl3Output`, `Opl3Wave`), the operator graph that register writes rewire
(`Opl3Wiring`), the timed ring of register writes (`Opl3WriteBuffer`) and the resampler (`Opl3Resampler`). `Opl3Sound`
puts counters, envelopes, waveforms, wiring and mix together: thirty-six operators played in slot order through
whatever wiring the register writes have left; its `Generator` runs the in-place envelope and output objects of all of
them. `Opl3Voices` says what can be heard of the wiring, in terms of the registers alone.

## The serial disk server

`SerialServer` is the request loop of `Process.cpp` as a machine over received bytes; `SerialLoop` is the loop itself,
with its buffer, its port that delivers chunks of any size and its two images, proved to act like the machine, and
without timeouts like the machine fed one byte at a time. `SerialSafety` says what can ever be written, with timeouts
as events that may happen wherever the loop can observe one, `SerialReplies` what is answered, to every kind of packet
and in every run; `SerialRoundTrip` puts a client at the other end. `Checksum.dfy` (module `Fletcher`) and
`ChecksumErrors` treat the checksum, `DiskImage` the geometry and the addressing.

## The scaler

`ScalerPack` is the pixel packer and unpacker of `sys/ascal.vhd` for 128-bit words, `ScalerDivider` its clocked
non-restoring divider, `ScalerTripleBuffer` the buffer protocol between input frames and output frames.

## Where the code does not keep a promise

- A disk request whose first sector is inside the image can leave it: nothing checks the sectors after the first. A
  write then makes the image longer, a read ends the server with a fatal error. `SerialRoundTrip.ChsRunStaysInside`
  says exactly when, `SerialRoundTrip.OneSectorImageGrows` gives a request that does it.
- The command that follows a rejected sector is lost, because the write stays open
  (`SerialReplies.CommandAfterRejection`).
- A write command for no sectors is answered like a read (`SerialReplies.NoSectorsSendsOne`).
- The OPLL's locked shift is stale for one lock after its timer wraps to zero (`OpllTimer.LockedShift`).
- A two-operator connection write does not make every operator feed exactly one place while the upper channel of the
  pair is still wired as half of a voice (`Opl3Wiring.ChannelHeardOnce` says exactly when,
  `Opl3Wiring.FiveWritesHeardTwice` gives the writes).
- The comment in `Checksum.cpp` (60-61) rejects another way of folding because it misses single-bit errors; the
  folding that is used misses some as well (`ChecksumErrors.UndetectedFlip`). `ChecksumErrors.SingleBitFlip` says
  which, for bits that were zero and bits that were set, in terms of the two sums of the intact words, and
  `ChecksumErrors.FlipAtPowerOfTwo` in closed form where the word's distance from the end is a power of two.
- The first frame the scaler completes is not shown: the first switch of the output selects a buffer that was never
  written, unless both happen in one clock (`ScalerTripleBuffer.SwitchSelectsNewest`).
- The divider is exact for at most 2048 output lines; with more, its signed remainder overflows at once
  (`ScalerDivider.ExactlyUpTo2048Lines`).
- The warning text in `Image.cpp` (128) names a limit of 65535 cylinders; the code uses 65536, and so does the model.

## Conventions

Registers are natural numbers with their widths and wrap-around written out; the serial registers are sequences of
bits. C's arithmetic right shift of a negative number is Dafny's floor division, C's truncating division is spelled
out (`Opl3Resampler.CDiv`). `unsigned long` in the serial server is 32 bits wide, as on the ARM target its makefile
builds for. Objects that the source updates in place are classes whose methods are specified by functions on values;
the theorems are about those functions.

## Model

| member | source | states |
|---|---|---|
| OpllTimer.SampleStep | rtl/sound/jtopl/doc/opll.c:621-656 | eighteen clocks of the rotating 18-bit timer add one to it when the counter state is 3 mod 4 and leave it alone otherwise, and leave behind the position of its lowest set bit |
| OpllTimer.TimerAfter | rtl/sound/jtopl/doc/opll.c:621-656 | at every sample boundary of every run from reset the timer holds the number of completed groups of four samples modulo 2^18, with the counter states and the pending shift to match |
| OpllTimer.LockedShift | rtl/sound/jtopl/doc/opll.c:638-652 | each lock takes the timer modulo 4 and exactly OPL3's directly computed shift, if and only if it is not the one lock after the timer wraps to zero, which still holds shift 1 |
| SerialAdder.FullTurn | rtl/sound/jtopl/doc/opll.c:621-633 | a full turn of a rotating register under the one-bit adder with kept carry is addition modulo its width |
| OpllLfo.MasksAreEndPoints | rtl/sound/jtopl/doc/opll.c:1034-1040 | on 0..105 the two bit-mask tests of the direction bit are exactly tests for the end points |
| OpllLfo.SampleStep | rtl/sound/jtopl/doc/opll.c:1011-1047 | eighteen clocks of the rotating AM counter move it one step up or down when a step is due |
| OpllLfo.CounterIsTriangle | rtl/sound/jtopl/doc/opll.c:1011-1047 | at every sample boundary of every run the AM counter is the 210-step triangle of the steps so far and so never leaves 0..105 |
| OpllLfo.AgreesWithOpl3Tremolo | rtl/sound/jtopl/doc/opl3.c:1115-1126 | the OPLL's serial AM counter, one sample later, equals the unshifted tremolo level the OPL3 derives from its position counter |
| OpllEnvelope.SlotStep | rtl/sound/jtopl/doc/opll.c:658-733 | an attack that steps falls strictly and not below zero, decay and release never pass 127 and never skip the sustain band |
| OpllEnvelope.TickKeepsValid | rtl/sound/jtopl/doc/opll.c:601-826 | every clock keeps all eighteen levels in 0..127 and keeps the two `off` bits describing the two slots inside the pipeline |
| OpllEnvelope.LevelsStayInRange | rtl/sound/jtopl/doc/opll.c:658-733 | for every history of register values and timer locks the levels stay in 0..127, and the pipeline is aligned from the third clock after reset |
| OpllChip.EnvelopeTimer.Clock | rtl/sound/jtopl/doc/opll.c:621-656 | the in-place timer section is one step of the timer specification |
| OpllChip.AmLfo.Clock | rtl/sound/jtopl/doc/opll.c:1011-1047 | the in-place LFO section is one step of the LFO specification |
| OpllChip.EnvelopeGenerator.Clock | rtl/sound/jtopl/doc/opll.c:658-826 | the in-place envelope section, slot leaving and slot entering, is one step of the envelope specification |
| OpllChip.Opll.Clock | rtl/sound/jtopl/doc/opll.c:1059-1095 | one chip clock keeps timer and LFO where that many clocks from reset put them and the envelope pipeline where the history of control values puts it, for any register values |
| OpllChip.SampleBoundary | rtl/sound/jtopl/doc/opll.c:1059-1095 | at clock 18n the chip's timer and AM counter are the closed forms for n samples |
| OpllChip.LocksInRange | rtl/sound/jtopl/doc/opll.c:638-652 | the locked values stay in range in every run and nothing is locked in the first two clocks |
| OpllLfo.LatchedLevel | rtl/sound/jtopl/doc/opll.c:1059-1063 | the level latched in every sample of every run is the triangle divided by eight |
| OpllLfo.AgreesWithOpl3Vibrato | rtl/sound/jtopl/doc/opll.c:1016-1023 | in every clock of every run the vibrato counter is the position the OPL3 keeps |
| OpllSpeed.SlowIncrement | rtl/sound/jtopl/doc/opll.c:735-751 | a slow rate sets its step bit exactly when the OPL3's rate with the same bits would step at the locked shift |
| OpllSpeed.SixteenFalls | rtl/sound/jtopl/doc/opll.c:692-724 | what a fast rate means: over a turn of the two locked timer bits the falls add up to 4 + rateLo, to two or four times that for the next two rates, and to 32 for the highest |
| OpllSpeed.EntersWithRate | rtl/sound/jtopl/doc/opll.c:783-825 | which rate a slot of each stage enters with, by its key, its place and the patch bits, and how key scaling adds to it |
| OpllSpeed.FallsPerPeriod | rtl/sound/jtopl/doc/opll.c:621-826 | on the running chip a decay, sustain or release at a slow rate falls by exactly 4 + rateLo in every aligned period of 2^(14 - rateHi) timer values in every trip; the lock that is stale after a wrap never matters to it |
| OpllSpeed.AttackShrinks | rtl/sound/jtopl/doc/opll.c:680-689 | an attack step takes one sixteenth, eighth, quarter or half of the level counted from one, rounded up |
| OpllSpeed.AttackPace | rtl/sound/jtopl/doc/opll.c:680-689 | which of these steps, if any, each rate takes, in terms of the OPL3's step patterns; the highest rate takes none |
| OpllSpeed.SilenceAndStart | rtl/sound/jtopl/doc/opll.c:660-668 | a silent slot goes to the bottom; a starting slot begins at full volume exactly at the highest rate |
| OpllSpeed.StagesInOrder | rtl/sound/jtopl/doc/opll.c:658-733 | on the running chip, in every pass of every slot: start from silence, attack until zero, decay until the band, sustain, and release when the key is up |
| Opl3Timing.CountersAfter | rtl/sound/jtopl/doc/opl3.c:1115-1166 | every free-running counter in closed form for every number of samples, through every wrap: each trip of the envelope timer after the first is two samples shorter |
| Opl3Timing.Tremolo | rtl/sound/jtopl/doc/opl3.c:1119-1126 | the shifted triangle is at most 26 |
| Opl3Timing.TremoloDepth | rtl/sound/jtopl/doc/opl3.c:1119-1126 | the two depths: a quarter or a sixteenth of the triangle, 26 or 6 at its peak |
| Opl3Timing.Chip.Advance | rtl/sound/jtopl/doc/opl3.c:1115-1166 | the in-place counter section is one step of that specification, and the tremolo is the shifted triangle |
| Opl3Timing.ScanForSetBit | rtl/sound/jtopl/doc/opl3.c:1137-1150 | the scan loop finds the number of trailing zeros of the nonzero 36-bit timer |
| Opl3Envelope.LevelStep | rtl/sound/jtopl/doc/opl3.c:452-499 | every sample keeps the level in nine bits without the mask removing anything; attack falls strictly when it steps, other stages only rise, and a decay cannot step over its band |
| Opl3Envelope.MaskNeverTruncates | rtl/sound/jtopl/doc/opl3.c:452-499 | for every history of registers, keys and counters the level each sample computes is in 0..0x1ff before the mask, which therefore never removes anything |
| Opl3Envelope.DecayEndsInBand | rtl/sound/jtopl/doc/opl3.c:481-490 | a decay that starts at or below its sustain band is at or below it as long as it lasts and can only end inside it |
| Opl3Envelope.FastAttackFinishes | rtl/sound/jtopl/doc/opl3.c:471-480 | with the key held and a fast attack rate (12 to 14), any attack reaches zero within seventy samples and is an attack until then |
| Opl3Envelope.FastAttackFinishesOnChip | rtl/sound/jtopl/doc/opl3.c:1135-1166 | the chip's own counters provide the alternation that the bound needs, whenever the attack starts |
| Opl3Envelope.AttenuationRange | rtl/sound/jtopl/doc/opl3.c:377-378 | the attenuation an operator plays at is at least its level and at most 1013 |
| Opl3Envelope.KeyScaleRange | rtl/sound/jtopl/doc/opl3.c:353-362 | key scaling grows with note and block and never exceeds 224 |
| Opl3Envelope.KeyScalePerOctave | rtl/sound/jtopl/doc/opl3.c:340-362 | what the key scale settings mean: per octave 0, 16, 8 or 32 units more attenuation |
| Opl3Envelope.AttenuationParts | rtl/sound/jtopl/doc/opl3.c:377-378 | the attenuation is the level, four for each total level step, the tremolo and the key scaling, nothing else |
| Opl3Envelope.Slot.EnvelopeUpdateKSL | rtl/sound/jtopl/doc/opl3.c:353-362 | the in-place update stores that value and keeps the slot valid |
| Opl3Envelope.Slot.EnvelopeCalc | rtl/sound/jtopl/doc/opl3.c:364-509 | the in-place envelope step computes the specified level, stage, attenuation and phase reset flag |
| Opl3Rate.StepsPerPeriod | rtl/sound/jtopl/doc/opl3.c:415-451 | what a slow rate means: rate rateHi with low bits rateLo makes exactly 4 + rateLo steps in every period of 2^(14 - rateHi) timer values |
| Opl3Rate.StepsOnChip | rtl/sound/jtopl/doc/opl3.c:415-451 | the same in samples of the running chip: 4 + rateLo steps in the 2 * 2^(14 - rateHi) samples of every aligned period of the timer, in its first trip and, past the first period, after every wrap |
| Opl3Rate.StepsAfterWrap | rtl/sound/jtopl/doc/opl3.c:1135-1166 | the period left over, two samples shorter: after a wrap the timer value 1 is never acted on, which costs the fastest of these rates one step and no other any |
| Opl3Rate.ShiftAtMultiple | rtl/sound/jtopl/doc/opl3.c:415-436 | a slow rate steps only at multiples of its unit, at which of every eight its low bits decide |
| Opl3Speed.RisesPerPeriod | rtl/sound/jtopl/doc/opl3.c:364-509 | registers to level: on the running chip a held decay (by dr), sustain (by rr, hold flag off) or release (by rr) at a slow rate rises by exactly 4 + rateLo per aligned period, where four times that one register and the key scaling of rates make 4 rateHi + rateLo |
| Opl3Speed.RisesPerFour | rtl/sound/jtopl/doc/opl3.c:437-499 | the same for the fast rates: what four samples add, up to sixteen |
| Opl3Speed.StandsStill | rtl/sound/jtopl/doc/opl3.c:381-412 | a level that is not off does not move while its stage's register is zero or a sustain is held |
| Opl3Speed.HeldSustain | rtl/sound/jtopl/doc/opl3.c:394-399 | with its key down and the hold flag set a sustain stands still for any time, whatever else registers and counters do |
| Opl3Speed.OffGoesSilent | rtl/sound/jtopl/doc/opl3.c:459-468 | a level that counts as off goes to the bottom unless an attack is on or beginning |
| Opl3Speed.KeyDown | rtl/sound/jtopl/doc/opl3.c:381-389 | a key that goes down on a released slot starts an attack, at full volume exactly if four times the attack register and the key scaling reach 60 |
| Opl3Speed.AttackShrinks | rtl/sound/jtopl/doc/opl3.c:471-480 | an attack step takes one, two or four eighths of the level counted from one, rounded up |
| Opl3Speed.AttacksPerPeriod | rtl/sound/jtopl/doc/opl3.c:364-509 | on the running chip a slow attack takes exactly 4 + rateLo such steps per aligned period, by ar |
| Opl3Speed.StagesInOrder | rtl/sound/jtopl/doc/opl3.c:469-508 | over every history with the key held: attack until the level has been zero, decay until it has then been in the band, sustain from then on |
| Opl3Speed.ReleasedWhenUp | rtl/sound/jtopl/doc/opl3.c:501-508 | a sample leaves a slot released if and only if its key was up |
| Opl3Output.Antitone | rtl/sound/jtopl/doc/opl3.c:188-195 | more attenuation is never louder, across every table and octave boundary and the clamp |
| Opl3Output.OctaveHalves | rtl/sound/jtopl/doc/opl3.c:188-195 | 256 more units of attenuation halve the amplitude exactly |
| Opl3Output.AmplitudeRange | rtl/sound/jtopl/doc/opl3.c:188-195 | the amplitude is at most 4084 and is zero exactly from 3072 units on |
| Opl3Rom.ExpromFalls | rtl/sound/jtopl/doc/opl3.c:100-133 | the exponential table never rises |
| Opl3Wave.WaveIs | rtl/sound/jtopl/doc/opl3.c:197-332 | the envelope acts on every waveform only as added attenuation |
| Opl3Wave.SineShapes | rtl/sound/jtopl/doc/opl3.c:197-264 | the sine is symmetric about a quarter turn and changes sign after a half; its positive half, its magnitude and its rising quarters are the next three waveforms |
| Opl3Wave.SineRises | rtl/sound/jtopl/doc/opl3.c:197-215 | the sine rises over its first quarter |
| Opl3Wave.DoubleSpeed | rtl/sound/jtopl/doc/opl3.c:266-288 | the double-speed waveforms run through the sine in half the time |
| Opl3Wave.FastShapes | rtl/sound/jtopl/doc/opl3.c:266-307 | they are a full and a rectified sine, each followed by silence |
| Opl3Wave.SquareShapes | rtl/sound/jtopl/doc/opl3.c:309-332 | the square wave, and the exponential that dies away from it and is mirrored in the second half |
| Opl3Wave.OutputRange | rtl/sound/jtopl/doc/opl3.c:667-670 | every waveform at every phase and envelope stays in -4085..4084, and only 0 or -1 is left from attenuation 384 on |
| Opl3Wave.FadesWithEnvelope | rtl/sound/jtopl/doc/opl3.c:667-670 | a rising envelope never makes a waveform louder nor changes its sign |
| Opl3Wave.OffIsSilent | rtl/sound/jtopl/doc/opl3.c:377-378 | an operator at level 0x1ff outputs only 0 or -1, whatever else is set |
| Opl3Wave.FeedbackRange | rtl/sound/jtopl/doc/opl3.c:672-683 | feedback of two in-range outputs stays in -2043..2042 |
| Opl3Wave.FeedbackDepth | rtl/sound/jtopl/doc/opl3.c:672-683 | the highest setting feeds back a quarter of the sum of the last two outputs, each lower one half as much, the lowest nothing |
| Opl3Wave.Operator.CalcFB | rtl/sound/jtopl/doc/opl3.c:672-683 | the in-place feedback step, keeping outputs and feedback in range |
| Opl3Wave.Operator.Generate | rtl/sound/jtopl/doc/opl3.c:667-670 | the in-place output step, keeping the output in range |
| Opl3Wave.MixRange | rtl/sound/jtopl/doc/opl3.c:1067-1077 | the mix of n four-tap channels is within 16340 n |
| Opl3Wave.MixAdds | rtl/sound/jtopl/doc/opl3.c:1067-1077 | switching a channel on adds its four taps to a side of the mix and changes nothing else |
| Opl3Wave.MuteIsSilent | rtl/sound/jtopl/doc/opl3.c:1067-1077 | a side on which no channel is switched on is zero |
| Opl3Wave.Mix | rtl/sound/jtopl/doc/opl3.c:1067-1077 | the mixing loop computes the sum of the enabled channels; for taps in range every four-tap sum fits 16 bits and every partial mix 32 bits |
| Opl3Sound.RunOk | rtl/sound/jtopl/doc/opl3.c:825-963 | after any register writes every input and tap names one of the thirty-six operators |
| Opl3Sound.EveryRunFits | rtl/sound/jtopl/doc/opl3.c:1050-1113 | for every history of register writes, waveforms, phases and envelopes, at every point of every sample, all thirty-six outputs are in -4085..4084, every four-tap sum through the wiring of that moment fits 16 bits and the mix is within 294120 |
| Opl3Sound.TremoloByFlag | rtl/sound/jtopl/doc/opl3.c:377-378 | an operator follows the chip's tremolo exactly if its flag says so |
| Opl3Sound.SweepSolves | rtl/sound/jtopl/doc/opl3.c:1059-1113 | playing the operators in slot order solves the equations of an acyclic operator graph: each output is its waveform at its phase plus what its input reads in the same finished sample |
| Opl3Sound.EveryRunSolves | rtl/sound/jtopl/doc/opl3.c:1050-1113 | the same for every sample of every history, through the wiring the register writes have left |
| Opl3Sound.Generator.Generate | rtl/sound/jtopl/doc/opl3.c:1050-1113 | the loops of one sample play all slots, each an envelope object and an output object, in order, mix the left side after slot 14 and the right side after slot 32, and deliver the right side one sample late |
| Opl3Wave.ClipSample | rtl/sound/jtopl/doc/opl3.c:1037-1048 | the result fits 16 bits and a sample that fits is unchanged |
| Opl3Wave.ClipNearest | rtl/sound/jtopl/doc/opl3.c:1037-1048 | no 16-bit sample is nearer than the one it gives |
| Opl3Voices.EveryRunRemembers | rtl/sound/jtopl/doc/opl3.c:926-1035 | in every run connection bits, channel kinds and mode are what the registers last written say, bit by bit |
| Opl3Voices.ConnectionWriteSounds | rtl/sound/jtopl/doc/opl3.c:825-963 | after any register writes, a connection write makes a channel of a pair play as the registers say: which operator modulates which and whose outputs are heard, for two-operator channels by the bit and for voices by both bits |
| Opl3Voices.EveryRunOutsidePairs | rtl/sound/jtopl/doc/opl3.c:691-781 | in every run, at every moment, the other channels play so too, as pairs or as drums |
| Opl3Wiring.Run | rtl/sound/jtopl/doc/opl3.c:1245-1342 | after any register writes four-operator kinds and the four-operator algorithm bits occur only where a channel has its partner, so the partner is only used where it is set |
| Opl3Wiring.EveryRunMatches | rtl/sound/jtopl/doc/opl3.c:825-963 | after any register writes the wires of every channel are exactly those its kind, its connection bit and its algorithm register call for |
| Opl3Wiring.EveryRunPaired | rtl/sound/jtopl/doc/opl3.c:1013-1035 | after any register writes a channel is the first half of a voice exactly when its upper partner is the second half |
| Opl3Wiring.EveryRunAcyclic | rtl/sound/jtopl/doc/opl3.c:825-924 | after any register writes every modulation input is the constant, the operator's own feedback or a lower-numbered operator, and no channel looks outside its pair |
| Opl3Wiring.HalvesCommute | rtl/sound/jtopl/doc/opl3.c:926-963 | connection writes to the two halves of a four-operator voice commute |
| Opl3Wiring.VoiceHeardOnce | rtl/sound/jtopl/doc/opl3.c:926-963 | right after a connection write to a four-operator voice each of its four operators feeds exactly one input or tap of the whole chip |
| Opl3Wiring.ChannelHeardOnce | rtl/sound/jtopl/doc/opl3.c:902-963 | after a two-operator connection write both operators feed exactly one input if and only if the upper partner is not still wired as the second half of a voice |
| Opl3Wiring.SeparatedVoiceHeardTwice | rtl/sound/jtopl/doc/opl3.c:1013-1035 | separating any playing voice and writing its lower channel leaves an operator feeding two places |
| Opl3Wiring.FiveWritesHeardTwice | rtl/sound/jtopl/doc/opl3.c:1013-1035 | a concrete sequence of five register writes after reset that does so |
| Opl3Wiring.SlotTable | rtl/sound/jtopl/doc/opl3.c:177-179 | the channel-to-slot table is the closed form the wiring uses |
| Opl3Wiring.Opl3.constructor | rtl/sound/jtopl/doc/opl3.c:1198-1236 | the reset loop leaves every channel wired as a plain two-operator voice |
| Opl3Wiring.Opl3.ChannelSetupAlg | rtl/sound/jtopl/doc/opl3.c:825-924 | the in-place algorithm switch is the specified rewiring |
| Opl3Wiring.Opl3.ChannelWriteC0 | rtl/sound/jtopl/doc/opl3.c:926-963 | the in-place connection write, keeping the invariant |
| Opl3Wiring.Opl3.ChannelSet4Op | rtl/sound/jtopl/doc/opl3.c:1013-1035 | the loop over the six pair bits sets exactly the specified kinds |
| Opl3Wiring.Opl3.ChannelUpdateRhythm | rtl/sound/jtopl/doc/opl3.c:691-781 | the rhythm switch rewires channels 6 to 8 as specified and nothing else |
| Opl3Wiring.Opl3.WriteRegister | rtl/sound/jtopl/doc/opl3.c:1245-1342 | register decoding reaches the specified operation and keeps the invariant |
| Opl3WriteBuffer.ExactlyOnceInOrder | rtl/sound/jtopl/doc/opl3.c:1344-1370 | in every run each issued write is applied once or still pending, in issue order, also through overflow, and nothing pending is overdue |
| Opl3WriteBuffer.AppliedWhenDue | rtl/sound/jtopl/doc/opl3.c:1168-1179 | in every run, whatever is issued between the samples, each scheduled entry leaves in its turn, either flushed by overflow or in the very sample whose count equals its time, and no pending entry is overdue |
| Opl3WriteBuffer.DrainsAtMostOne | rtl/sound/jtopl/doc/opl3.c:1168-1179 | the draining loop applies the head exactly if its time is now, and never a second entry |
| Opl3WriteBuffer.QuietSamples | rtl/sound/jtopl/doc/opl3.c:1168-1179 | a stretch of samples with no write issued applies exactly the entries due in it |
| Opl3WriteBuffer.WriteBuffer.WriteRegBuffered | rtl/sound/jtopl/doc/opl3.c:1344-1370 | the ring keeps its pending entries exactly in the segment from the read position, and an issue is the specified queue operation |
| Opl3WriteBuffer.WriteBuffer.ApplyDue | rtl/sound/jtopl/doc/opl3.c:1168-1179 | the draining loop applies the head exactly when it is due |
| Opl3WriteBuffer.IssuedAtEarliest | rtl/sound/jtopl/doc/opl3.c:1344-1370 | in every run a write gets the earliest time not past and two samples after the one before; only with 1024 pending does it push the oldest out, and then the count jumps to that one's time |
| Opl3Resampler.BetweenNeighbours | rtl/sound/jtopl/doc/opl3.c:1191-1194 | an output lies between its two neighbouring samples, so the 16-bit cast loses nothing |
| Opl3Resampler.FitsExactly | rtl/sound/jtopl/doc/opl3.c:1191-1194 | the 32-bit products and sums never overflow if and only if the ratio is at most 65536 |
| Opl3Resampler.Resampler.GenerateResampled | rtl/sound/jtopl/doc/opl3.c:1182-1196 | the loop ends, output k is the chip's stream read at position 1024 k / ratio, time used plus time left is exactly 1024 k, and every 32-bit product and sum of the blend is checked to fit |
| Opl3Resampler.Resampler.GenerateStream | rtl/sound/jtopl/doc/opl3.c:1372-1381 | a stream is the next outputs in order, however it is cut into calls |
| Opl3Resampler.OutputReadsStream | rtl/sound/jtopl/doc/opl3.c:1191-1194 | each output is the point 1024 k mod ratio out of ratio of the way from the last but one generated sample to the last, with the fraction cut off towards zero |
| Opl3Resampler.WholePosition | rtl/sound/jtopl/doc/opl3.c:1191-1194 | at a whole position the output is the older sample itself |
| Fletcher.ComputeChecksum | SW/Serial_Server/library/Checksum.cpp:43-65 | the loop and folds compute the specified checksum |
| Fletcher.NoOverflow | SW/Serial_Server/library/Checksum.cpp:49-53 | for at most 256 words neither 32-bit accumulator wraps |
| Fletcher.TwoFolds | SW/Serial_Server/library/Checksum.cpp:55-58 | two folds leave the representative in 1..65535 modulo 65535 |
| Fletcher.ChecksumIsFletcher | SW/Serial_Server/library/Checksum.cpp:43-65 | the checksum is made of the plain and the weighted sum of the words modulo 65535; seed and folding only choose 65535 for zero |
| ChecksumErrors.FlipAndHighByte | SW/Serial_Server/library/Checksum.cpp:55-64 | adding 2^k always changes the folded first sum, and leaves its checksum byte unchanged if and only if the sum was 0xffff less the bit below k |
| ChecksumErrors.SingleBitFlip | SW/Serial_Server/library/Checksum.cpp:43-65 | exactly when a flip of one bit, from zero or from one, leaves the first byte, and the whole checksum, unchanged, as conditions on the two sums of the intact words |
| ChecksumErrors.FlipAtPowerOfTwo | SW/Serial_Server/library/Checksum.cpp:43-65 | for a word whose distance from the end is a power of two, the last one among them, the flip goes unnoticed exactly when each sum is one given value: all ones but for one bit, or, for a bit that was set, that bit alone |
| ChecksumErrors.UndetectedFlip | SW/Serial_Server/library/Checksum.cpp:60-64 | a single-bit error the checksum misses, on three words |
| DiskImage.Image.Init | SW/Serial_Server/library/Image.cpp:76-150 | which images are accepted, and for those the geometry: its product never exceeds the sector count and is less only for the capped oversized image |
| DiskImage.FindFloppy | SW/Serial_Server/library/Image.cpp:101-112 | the table search finds exactly the genuine floppy sizes |
| DiskImage.TableEntry | SW/Serial_Server/library/Image.cpp:30-44 | every genuine table row's size is the product of its geometry |
| DiskImage.ChsRoundTrip | SW/Serial_Server/library/Process.cpp:296-302 | every in-range cylinder, head and sector names a sector below the geometry's product, and is recovered from it |
| DiskImage.CountsUp | SW/Serial_Server/library/Process.cpp:296-302 | sector numbers count the in-range names in order of sector, head and cylinder, from the first without gaps |
| DiskImage.LbaRoundTrip | SW/Serial_Server/library/Process.cpp:296-302 | every sector below the product has an in-range name, so the formula is a bijection |
| DiskImage.WrittenSectors | SW/Serial_Server/linux/LinuxFile.h:96-124 | a write puts the data in its place, leaves the rest and fills a gap beyond the end with zeros |
| SerialServer.ChunkIsItsBytes | SW/Serial_Server/library/Process.cpp:136-249 | a chunk the server asked for has exactly the effect of its bytes one after another |
| SerialServer.Process | SW/Serial_Server/library/Process.cpp:179-397 | the loop body keeps the loop-head invariant on the buffer offset, the awaited length and the open command |
| SerialLoop.ProcessRequests | SW/Serial_Server/library/Process.cpp:100-402 | however the port splits the input and wherever a timeout strikes, replies and disks are those of the run of arrivals, whose bytes are the input and in which every write was permitted; with timeouts disabled they are those of the same bytes fed one at a time |
| SerialLoop.ServeArrival | SW/Serial_Server/library/Process.cpp:138-397 | one pass through the loop body does what the machine does with the arrival |
| SerialLoop.HandleLate | SW/Serial_Server/library/Process.cpp:146-177 | the timeout branch: the open command is dropped and the chunk kept only if it may start a new one |
| SerialSafety.RunIsItsBytes | SW/Serial_Server/library/Process.cpp:136-397 | a run without timeouts depends on its bytes only, not on how they were cut |
| SerialLoop.HandleSector | SW/Serial_Server/library/Process.cpp:220-249 | the sector branch: checksum test, read-only test, write and echo |
| SerialLoop.HandleCommand | SW/Serial_Server/library/Process.cpp:254-339 | the command branch: continuation test, checksum test, drive and address decoding, refusals |
| SerialLoop.HandleRequest | SW/Serial_Server/library/Process.cpp:341-397 | an accepted request: ask for a sector, identify, or send a sector |
| SerialServer.HaltedForGood | SW/Serial_Server/library/Process.cpp:376-381 | after the fatal read past the end nothing more happens, whatever arrives |
| SerialSafety.EveryRunIsSafe | SW/Serial_Server/library/Process.cpp:136-397 | for arbitrary bytes, chunks and timeouts the disks hold exactly the writes recorded, and each was checksummed, to a writable disk, at the next sector of an accepted write command with sectors due |
| SerialSafety.ReceiveLate | SW/Serial_Server/library/Process.cpp:146-177 | a late chunk drops the open command and keeps the invariant |
| SerialSafety.ReadOnlyUntouched | SW/Serial_Server/library/Process.cpp:229-233 | a read-only disk is never changed by any permitted trace |
| SerialLoop.HardDiskFirst | SW/Serial_Server/library/Process.cpp:124-132 | the server uses the two images given and changes their places exactly to put a hard disk before a floppy |
| SerialReplies.EveryRunIsTruthful | SW/Serial_Server/library/Process.cpp:136-397 | in every run, with any chunks and timeouts, the output is exactly the replies to the events: two checksum bytes per sector written, and a packet per sector sent, which is the one the open job asks for, or identify sector |
| SerialReplies.SectorOutcome | SW/Serial_Server/library/Process.cpp:220-249 | any 514 bytes where a sector is due: if corrupted or for a read-only drive nothing is written or sent and the job stays open, otherwise the sector is written and exactly its two checksum bytes are sent |
| SerialReplies.CommandRefused | SW/Serial_Server/library/Process.cpp:276-335 | a command that is corrupted, for a missing drive, or a write to a read-only one has no effect and no answer |
| SerialReplies.WriteAsksForSector | SW/Serial_Server/library/Process.cpp:339-345 | a write command is answered by waiting for its first sector, and by nothing on the wire |
| SerialReplies.InquireAnswered | SW/Serial_Server/library/Process.cpp:350-372 | an identify command is answered by the identify sector for its drive, port and baud word and scan flag, with baud emulation only at the emulated speed |
| SerialReplies.NoSectorsSendsOne | SW/Serial_Server/library/Process.cpp:339-397 | a command for no sectors, also a write, is answered by one sector |
| SerialReplies.NoiseIgnored | SW/Serial_Server/library/Process.cpp:184-208 | a byte that cannot start a command is dropped |
| SerialReplies.WrongContinuation | SW/Serial_Server/library/Process.cpp:258-270 | a wrong continuation byte ends the job without an answer |
| SerialReplies.CommandAfterRejection | SW/Serial_Server/library/Process.cpp:220-270 | the command after a rejected sector is lost: it is taken for a continuation |
| SerialReplies.LateIsForgotten | SW/Serial_Server/library/Process.cpp:146-177 | after a timeout a chunk has exactly the effect it has on a server with no job open, or none |
| SerialRoundTrip.DiskRoundTrip | SW/Serial_Server/library/Process.cpp:220-397 | a client that writes 1 to 255 sectors and reads them back gets the same bytes with valid checksums, and no other sector or drive changes |
| SerialRoundTrip.WriteThenRead | SW/Serial_Server/library/Process.cpp:220-397 | for every drive, in-range sector number and run of 1 to 255 sectors, the commands that name them write and read back exactly that data |
| SerialRoundTrip.WriteConversation | SW/Serial_Server/library/Process.cpp:220-346 | what any complete write conversation leaves on disk and sends back: the sectors written one after the other, also beyond the end of the image |
| SerialRoundTrip.WriteStaysInside | SW/Serial_Server/library/Process.cpp:220-249 | a complete write, however its first sector is named, leaves the image as long as it was if and only if the whole run is inside it |
| SerialRoundTrip.ReadConversation | SW/Serial_Server/library/Process.cpp:254-397 | a complete read conversation changes nothing and returns, with its checksum, every sector asked for that the image has; the server runs on if and only if it has them all |
| SerialRoundTrip.LbaCommandDecodes | SW/Serial_Server/library/Process.cpp:289-295 | every 28-bit sector number has a valid command that decodes to it |
| SerialRoundTrip.ChsCommandReachesSector | SW/Serial_Server/library/Process.cpp:296-302 | every in-range cylinder, head and sector has a valid command whose first sector is the one named, inside the image |
| SerialRoundTrip.ChsRunStaysInside | SW/Serial_Server/library/Process.cpp:220-397 | an in-range name does not keep a longer run inside: a write keeps the image's length, and a read the server running, if and only if the run's last sector is inside the image |
| SerialRoundTrip.OneSectorImageGrows | SW/Serial_Server/library/Process.cpp:220-249 | a request that leaves the image: two sectors written at the only in-range name of a one-sector image make it two sectors long |
| ScalerPack.PackedWords | sys/ascal.vhd:562-626 | after any line the words pushed are exactly the complete words of the line's byte stream |
| ScalerPack.NextInput | sys/ascal.vhd:612-626 | a word is pushed exactly when a pixel's bytes reach its end |
| ScalerPack.NextOutput | sys/ascal.vhd:681-698 | a word is fetched exactly when the pixel needs bytes that are not there yet |
| ScalerPack.UnpackStep | sys/ascal.vhd:628-698 | the output shift register always starts at the pixel's own bytes of the memory |
| ScalerPack.RoundTrip | sys/ascal.vhd:562-719 | for any line every pixel inside a pushed word comes back, exactly or as its 565 quantisation |
| ScalerPack.LineRoundTrip | sys/ascal.vhd:562-719 | a line of a multiple of sixteen pixels comes back whole and the words read are exactly the words pushed |
| ScalerPack.KeptExactly | sys/ascal.vhd:709-711 | in the 24 and 32 bit formats what comes back is the line itself |
| ScalerPack.Idempotent | sys/ascal.vhd:703-707 | storing the 565 quantisation of a pixel again gives the same bytes |
| ScalerPack.RepackSame | sys/ascal.vhd:562-719 | packing what came back gives the same words |
| ScalerPack.MemoryLayout | sys/ascal.vhd:562-626 | where others find a pixel of a pushed line: bytes red, green, blue, or a 16-bit number of five bits blue, six green, five red from the top |
| ScalerPack.QuantisedNear | sys/ascal.vhd:703-707 | what a 565 pixel comes back as: its high bits, within seven or three of the original, black and full colour unchanged |
| ScalerPack.InputSide.Accept | sys/ascal.vhd:1457-1466 | the clocked input registers follow the packing specification |
| ScalerPack.OutputSide.Take | sys/ascal.vhd:2294-2298 | the clocked output registers follow the unpacking specification |
| ScalerDivider.LongDivides | sys/ascal.vhd:1829-1861 | the reference: binary long division gives quotient and remainder |
| ScalerDivider.StepTracks | sys/ascal.vhd:1852-1857 | every step keeps the 13-bit signed remainder equal to the true one, less the divisor while negative, without overflow |
| ScalerDivider.Exact | sys/ascal.vhd:1829-1861 | for dividends below a divisor of at most 4096 the latched fraction is the exact twelve-bit quotient of the dividend at the start, thirteen clocks later, whatever the accumulator has become since |
| ScalerDivider.ExactlyUpTo2048Lines | sys/ascal.vhd:1836-1857 | the divider is right for every dividend below the divisor if and only if there are at most 2048 output lines |
| ScalerDivider.Divider.Clock | sys/ascal.vhd:1835-1859 | the clocked process follows the register specification |
| ScalerDivider.Divider.Divide | sys/ascal.vhd:1839-1859 | started and left running, it delivers the quotient |
| ScalerTripleBuffer.NextIsThird | sys/ascal.vhd:429-435 | from two different buffers the third follows |
| ScalerTripleBuffer.EveryRun | sys/ascal.vhd:1926-1971 | the invariant of every interleaving of frame ends and output syncs from reset |
| ScalerTripleBuffer.OnceApart | sys/ascal.vhd:1926-1977 | once the write and read buffers differ they always differ, and so do their copies a clock later |
| ScalerTripleBuffer.ShownIsNotWritten | sys/ascal.vhd:1926-1977 | from the first completed frame on the shown buffer's content does not change while it is shown |
| ScalerTripleBuffer.SwitchSelectsNewest | sys/ascal.vhd:1940-1966 | a switch selects the frame completed last if and only if it is not the first frame or that frame ends in the same clock |
| ScalerTripleBuffer.OutputMoves | sys/ascal.vhd:1926-1971 | the output changes buffers only at a sync, if and only if a frame has been completed since the last one or is now |
| ScalerTripleBuffer.InputMoves | sys/ascal.vhd:1926-1946 | the input changes buffers exactly when a frame ends, to one neither just written nor shown |
| ScalerTripleBuffer.FirstFrameIsMissed | sys/ascal.vhd:1926-1943 | the failing case: one frame, one switch, and a buffer nobody wrote is shown |
| ScalerTripleBuffer.BufferControl.Clock | sys/ascal.vhd:1924-1977 | the clocked process with its edge detectors follows the specification |

## Left out

- OPLL: test modes, the DS1001 and YM2420 variants, patch contents, rhythm phase patterns and the output stage; the register file is represented by the values it supplies per clock, arbitrary within their field widths.
- OPLL: the chip's record is cut into one object per section (timer, LFO, envelope); a slot's key and patch lookup are not part of it.
- Opl3Rate.StepsOnChip: gives rates 1 to 11; a nonzero register rate never gives rate 0, and the fast rates are in Opl3Speed.RisesPerFour.
- OpllSpeed.AttackPace: says for one pass how large an attack step is, not how many passes a whole attack takes; the stale lock after a wrap does reach attacks.
- Opl3Rom.ExpromFalls: the entries of the two tables are constants copied from the source; beyond their order nothing says that they are the right ones.
- OPL3: the phase generator, vibrato, noise, stereo panning and key registers; an operator's key is one flag instead of the two bits that are ored into it.
- Opl3Wiring.Run: follows only the fields that decide the wiring; feedback strength, panning and all slot registers are left out, and the two modulation pointers of a channel's slots are kept with the channel.
- Opl3Wave.Mix: takes the values at the taps as its argument; that they are in range on the running chip is Opl3Sound.EveryRunFits.
- Opl3Sound.EveryRunFits: represents what a slot register, the rhythm section or the phase generator supplies by arbitrary values within the field widths, fresh for every operator and sample.
- Opl3Sound.Generator.Generate: is given each operator's registers with the sample and stores them in its envelope object as it plays it; the C record that holds both parts of an operator is cut into two objects.
- OPL3 write buffer: times are unbounded integers (64 bits in the code).
- Opl3Resampler.Resampler.constructor: requires a sample rate from 49, because a lower one gives ratio zero, for which the loop does not end, and a ratio of at most 65536 (a sample rate up to 3181872), because above it the 32-bit products of the blend overflow (Opl3Resampler.FitsExactly), which C leaves undefined.
- Serial server: ports, files, logging and argument parsing; sending never fails, so the two breaks after a failed send are not taken; input and output errors of the image file are fatal there and do not occur here, except for the read past the end.
- SerialLoop.HandleLate: copies the late chunk to the front of the buffer as one assignment; the memcpy of the code would be undefined where the two ranges overlap.
- SerialRoundTrip.ChsRunStaysInside: for images of fewer than 2^32 sectors, beyond which 32-bit sector numbers would wrap inside a run; the server accepts only images of fewer than 2^28.
- Image::respondInquire: an arbitrary function from drive, port and baud word and scan flag to a sector.
- SerialLoop.ProcessRequests: assumes that the two images are different objects and that the port delivers at least one byte per read until the line closes; the clock is replaced by an arbitrary choice at each chunk whether the timeout has passed.
- SerialLoop.HandleCommand: represents the loop's local variables as a record passed in and out, because Dafny methods cannot share the caller's locals.
- DiskImage.Image.constructor: stands for opening a file; file names, drive letters and the creation of new images are left out.
- Image::flipEndian and FindFloppyInfoBySize: short helpers that the protocol does not use.
- The checksum's statistics program.
- ScalerPack.RoundTrip: format code "11" is not part of it; the input side packs it as 16 bits per pixel while the output side reads it as 32.
- ScalerPack: 64-bit words, the 8-bit and 1555 formats, the frame header and the padding pixels pushed after a line; a line here is any sequence of accepted pixels, and the word address does not wrap at the burst buffer's end.
- ScalerDivider.Exact: holds the number of output lines still for the thirteen clocks; what the divider delivers when that changes in between is not stated.
- ScalerTripleBuffer.EveryRun: with the triple buffer enabled, freeze off and progressive input; interlaced fields and the framebuffer mode are left out.
- The rest of the scaler, the video core, the ROM scripts and the test benches: wiring, input and output, or simulation.
