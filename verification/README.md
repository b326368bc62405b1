# Verification of imud's cores

A Dafny model of the parts of imud whose correctness is hardest to see by reading, and
proofs about it. Each file is one module, and together they verify with
`dafny verify dfyconfig.toml`.

**Attitude filter** (`src/fusion.c`). `Fusion` says what each call does to the filter's
state, over exact reals, at error-state dimension 9 or 6; `FusionMath`, `Matrix` and `Sums`
hold the algebra. `Mekf` is the object itself, a class whose arrays are updated in place by
`ArrayMat`'s loops, and every one of its methods is proved to do what `Fusion` says.
`FusionRuns` proves what every run keeps, `FusionNull` the null directions of the Jacobians
and what the accelerometer may not touch, `FusionGain` that an update never adds variance,
and `FusionSix` that a disabled wave state leaves a 6-state filter. The build modelled is the
shipped one: no Huber variant, no wave transport. `SeaState` covers heave and sea state.

**FT232H backend** (`src/bus_ft232h.c`). `Mpsse` is the command stream as sections 3.3 and
3.6 of FTDI AN_108 define it, with a parser for it and the replies the chip owes.
`I2cBus` and `SpiBus` interpret commands as pin levels and levels as bus events: start,
stop, bits and acknowledges as in sections 3.1.4 to 3.1.6 and 3.1.10 of UM10204, chip
selects and sampled edges for SPI. `Ft232h`, `Ft232hSpi`, `SpiClock` and
`Ft232hTable` are the driver: the bounded buffer, flushes, reply handling, the clock and the
table of devices and handles. The device follows a script of outcomes for its calls, and
counts in `faults` those that failed and the waits that timed out with replies there to read;
bytes the chip cannot parse, and replies waited for that were never owed, show in `garbled`
instead. What is claimed of the bus is claimed of calls that leave `faults` as it was and
began with no replies left over, and `garbled` is then unchanged too. A `Healthy` device, one
whose script has no failure and no starving run of reads, never adds a fault. After a failed
flush the source still sends the stop or the deselect and may flush successfully; what the
chip has run is then still a beginning of what was emitted, and what follows for the answer
and for the clock is stated.

**Checksummed formats.** `Crc32` holds the bitwise CRC of `include/crc32.h` and its
bit-serial reference (clause 3.2.9 of IEEE Std 802.3), `Wire` the little-endian accessors
and the burst guarantee on buffers, `StreamClient` the 288-byte packet stream,
`CaptureFormat`, `CaptureRuns` and `Capture` the `.imucap` files with their writer, reader
and tap ring.

**Calibration.** `Gauss`, `SphereFit`, `SwingFrame`, `RotationCheck`, `SampleKeep`, `Allan` (Annex C of IEEE
Std 952-1997) and `CaptureLoad` model the mathematics of `src/cal_math.c`,
`src/cal_capture.c` and the mount matrix of `src/config.c`. `JsonScan`, `CalJson`,
`CalRoundTrip` and `CalFile` model cal.json, down to the characters printed and searched.

Conventions. `sqrt`, `sin`, `cos`, `exp`, `asin` and `atan2` are function values in a `Libm`
record, and `Valid` states the only laws of them any proof uses. Clocks, sockets, poll
results, USB outcomes and file contents are parameters or scripts of any content. Floats in
the stream and capture formats are carried as their bit patterns.

Findings where the code does less than one might expect:

- `ft232h_spi_msg` recomputes the divisor from the rounded rate, so a clock programmed again
  can land one step slower: 4.5 MHz comes out at 4285714 Hz, and again at 3750000 Hz
  (`SpiClock.ReprogrammedSlower`). `SpiClock.ReprogrammedDivisor` says exactly when it does not.
- `ft232h_spi_msg` records a handle's clock before the write that programs it, so after a failed
  write the next message can run too fast: `Ft232hTable.Tables.MissedClock` is a 1 MHz handle
  served at 30 MHz, and `Ft232hTable.Tables.SpiMsg` says exactly when the record is right.
- `ft232h_i2c_xfer` goes on to the stop after a flush that failed, and when the last flush then
  succeeds it answers from replies it never received: `Ft232h.I2cTransfer` says exactly when an
  answer can be trusted, always for a transaction that fits the buffer, and gives a failing case.
- An exponentially weighted variance goes negative when a step outlasts the window;
  `SeaState.LongStepExample` is such a step and `SeaState.LongStepBreaks` gives the exact
  condition.
- A damaged capture record can read as the end of the file instead of an error, when the
  damage makes its type one that needs a longer payload: `include/capture.h:34-37` promises
  the error in every case, `CaptureRuns.BurstStep` says which of the two comes, and every mark
  record is a case of it (`CaptureRuns.DamagedMarkEnds`).
- Switching the wave state on is safe only because its block was inert: `FusionRuns.SeedingNeedsInert`
  is a covariance it would spoil otherwise.
- A cal.json cut just before its final newline is whole; cut any earlier it is refused
  (`CalFile.CutLoadsOrRefuses`).

## Model

| member | source | states |
|---|---|---|
| FusionRuns.EveryRunKeepsCovariance | src/fusion.c:685-741 | After mekf_init and any sequence of align, predict, accel, magnetometer, reconfigure, sanitize, speed and reset calls, with a positive IMU rate, a magnetometer rate that is not negative and non-negative noise, the quaternion is a unit one, P is symmetric and positive semidefinite, and while the wave state is off wave_acc and rows and columns 6–8 of P are zero |
| FusionRuns.StepGood | src/fusion.c:996-1263 | Every single call keeps that invariant, whatever gate, cap or branch it takes |
| FusionRuns.JosephCovariance | src/fusion.c:716-741 | The Joseph form A P Aᵀ + K R Kᵀ is symmetric and positive semidefinite for any gain at all, and the closing symmetrize changes nothing |
| FusionRuns.ResetFolded | src/fusion.c:695-738 | Premultiplying K and I − KH by the reset Jacobian G, as the code does, gives G (Joseph form) Gᵀ |
| FusionRuns.RankOneCovariance | src/fusion.c:1767-1788 | Rm·I + σ²uuᵀ is a covariance, so the dip noise is one for any tangent direction |
| FusionRuns.PredictCovariance | src/fusion.c:1232-1258 | Φ P Φᵀ + Q is a covariance when P is one and Q's diagonal is not negative, and is what the code's symmetrized update computes |
| FusionRuns.PredictSupported | src/fusion.c:1200-1258 | With the wave block switched off, prediction keeps rows and columns 6–8 at zero |
| FusionRuns.SeededCovariance | src/fusion.c:2014-2035 | Switching the wave state on by writing its variance over P's diagonal leaves a covariance, given the block was zero |
| FusionRuns.SeededIsSum | src/fusion.c:2029-2035 | Writing over the diagonal is adding to it if and only if the wave variances written over were zero |
| FusionRuns.SeedingNeedsInert | src/fusion.c:2029-2035 | Without that it can fail: a covariance with two tied errors stops being one when 1/4 is written over one of their variances |
| FusionRuns.ClearedCovariance | src/fusion.c:2014-2028 | Switching the wave state off by zeroing its rows and columns leaves a covariance with an inert block |
| FusionSix.DisabledIsSixState | include/fusion.h:36-44 | From any reachable state with the wave state off, every further run gives the q, bias, 6×6 block and bookkeeping of a 6-state filter fed the same calls, with wave_acc and the wave block exactly zero |
| FusionSix.TwinStep | src/fusion.c:678-741 | One call takes a 9-state filter with an inert wave block and its 6-state twin to twins |
| FusionSix.TwinRuns | src/fusion.c:1191-1258 | Twins stay twins over any run that keeps the wave state off |
| FusionMath.QMulNorm | src/fusion.c:243-249 | \|ab\|² = \|a\|²\|b\|² for the code's quaternion product |
| FusionMath.TurnUnit | src/fusion.c:266-309 | q_normalize of q times a rotation-vector quaternion is again a unit quaternion, the small-angle branch included |
| FusionMath.DownRowUnit | src/fusion.c:280-286 | The third row of q_to_R of a unit quaternion is a unit vector |
| FusionMath.InvRight | src/fusion.c:95-119 | When m33_inv accepts a matrix, A times its result is the identity |
| FusionNull.PredictedNull | src/fusion.c:368-437 | For dir_jacobian and wave_jacobian alike the predicted direction is a left null vector of H and the vertical a right one |
| FusionNull.ProjectorNull | src/fusion.c:405-437 | The tangent projector of wave_jacobian annihilates the direction it projects along |
| FusionNull.InnovEigen | src/fusion.c:440-468 | If zᵀH = 0 and R z = r z then S z = r z for S = H P Hᵀ + R |
| FusionNull.RankOneEigen | src/fusion.c:1767-1788 | A rank-one term along u leaves every direction at right angles to u an eigenvector of the noise |
| FusionNull.AccelDirection | src/fusion.c:1379-1441 | In the gravity update the predicted direction is an eigenvector of S with eigenvalue R, with or without the wave state |
| FusionNull.MagDirection | src/fusion.c:1740-1788 | In the 3-D magnetometer update it is one too, the dip term being tangent to it |
| FusionNull.RadialShare | src/fusion.c:560-583 | When S is inverted, the predicted direction accounts for exactly one of the three expected squared components of the innovation |
| FusionNull.DistanceNonneg | src/fusion.c:573-589 | The squared innovation distance the gate compares is never negative |
| FusionNull.HuberCaps | src/fusion.c:585-626 | The Huber-weighted innovation lies exactly at the gate when the raw one lay beyond it and is unchanged otherwise, with a weight in (0, 1] |
| FusionNull.UpdateTurns | src/fusion.c:660-741 | An accepted update turns q by the attitude part of Kν and leaves G P′ Gᵀ, P′ the Joseph form and G the reset Jacobian |
| FusionNull.ProtectNull | src/fusion.c:650-658 | Projecting the attitude rows of the gain leaves Kᵀ(h,0,0) = 0 |
| FusionNull.ProtectedUpdate | src/fusion.c:630-741 | An accepted vector update with its vertical protected turns q by δθ, the attitude part of Kν, with δθ·h = 0, and its Joseph form P′ has hᵀP′h = hᵀPh |
| FusionNull.AccelKeepsHeading | src/fusion.c:1379-1441 | mekf_update_accel either changes neither q nor P or turns q by its own δθ, at right angles to NED down, with hᵀP′h = hᵀPh for its own Joseph form P′ |
| FusionGain.InverseMat | src/fusion.c:95-119 | For a symmetric S that m33_inv accepts, the inverse it uses is a symmetric right inverse |
| FusionGain.GainContracts | src/fusion.c:578-741 | With the gain PHᵀS⁻¹ the Joseph form lowers xᵀPx by exactly (Kᵀx)ᵀS(Kᵀx) ≥ 0, for every x |
| FusionGain.MagNeverInflates | src/fusion.c:1740-1797 | The Joseph form of an accepted unprotected vector update, its innovation capped or not, is nowhere above P: no combination of states gains variance before the reset Jacobian |
| ArrayMat.MulInto | src/fusion.c:207-216 | The triple loop leaves the matrix product in C |
| ArrayMat.MulTInto | src/fusion.c:219-228 | The triple loop leaves A·Bᵀ in C |
| ArrayMat.SymmetrizeInPlace | src/fusion.c:231-238 | P becomes the mean of itself and its transpose, in place |
| ArrayMat.PremulRows3 | src/fusion.c:141-149 | The first three rows become G times themselves and the rest stay, G the reset Jacobian |
| ArrayMat.ResidualInto | src/fusion.c:705-712 | IKH is I − K H |
| ArrayMat.InnovInto | src/fusion.c:459-468 | S is R plus H times PHᵀ |
| ArrayMat.AddNoise | src/fusion.c:716-735 | P gains K R Kᵀ, by the scalar shortcut or the full double sum alike |
| ArrayMat.ScalarNoise | src/fusion.c:716-735 | The scalar shortcut equals the general double sum for R on the diagonal |
| Mekf.Mekf.constructor | src/fusion.c:1022-1055 | A new filter is in the specification's initial state for its configuration and rates |
| Mekf.Mekf.ApplyCorrection | src/fusion.c:678-741 | The in-place tail of both updates injects K ν and contracts P as the specification does |
| Mekf.Mekf.EskfUpdate | src/fusion.c:495-744 | The in-place update leaves the state the specification gives, for every gate outcome, with P unchanged when it is rejected |
| Mekf.Mekf.EskfUpdateYaw | src/fusion.c:760-841 | The scalar heading update likewise |
| Mekf.Mekf.ResetState | src/fusion.c:996-1020 | Attitude, bias, wave acceleration and P go back to their initial values, the wave block to its variance only while it is on, and the rest of the object stays |
| Mekf.Mekf.Reconfigure | src/fusion.c:2001-2036 | Retuning seeds or clears the wave block as the switch goes on or off and keeps the rest |
| Mekf.Mekf.Sanitize | src/fusion.c:2038-2071 | Once triggered it resets, counts the reset and sets state_reset, which nothing clears |
| Mekf.Mekf.SetMrefInvariants | src/fusion.c:1057-1075 | The in-place rescaling leaves the state the specification gives, in every case |
| FusionRuns.MrefKeepsDirection | src/fusion.c:1057-1075 | The reference field takes the given horizontal strength and vertical part, keeps its horizontal direction, and nothing else changes; nothing at all does without a reference, a positive strength and a horizontal part to scale |
| Mekf.Mekf.Align | src/fusion.c:1077-1137 | Attitude and reference field from one accel and mag sample, in each of its cases |
| Mekf.Mekf.Predict | src/fusion.c:1139-1263 | The attitude turns by the unbiased rate, the wave acceleration decays, P is propagated and convergence recorded |
| Mekf.Mekf.UpdateAccel | src/fusion.c:1379-1441 | Skip band, centripetal correction, adaptive noise and the gravity update leave the specified state |
| Mekf.Mekf.MrefAcquire | src/fusion.c:1456-1489 | The reference field is the average of the first second of field readings turned to NED |
| Mekf.Mekf.UpdateMag | src/fusion.c:1491-1797 | Every gate, the 3-D and yaw-only choice, the health block and reference learning leave the specified state |
| Mekf.Mekf.PerformAll | src/fusion.c:1022-1797 | Any interleaving of calls on the object is a run of the specification, so the invariant holds of the arrays themselves |
| SeaState.SettleSamples | src/fusion.c:1831-1837 | The settling count is at least one, at most 10¹⁸, never below factor·τ/dt below that cap, and less than one sample above it |
| SeaState.HeaveStaysBounded | src/fusion.c:1849-1888 | Over any run of steps 0 < dt ≤ τ with \|a_down\| ≤ A: \|vel\| ≤ Aτ, \|disp\| ≤ Aτ² and the high-pass state within 2Aτ² |
| SeaState.LeakyBound | src/fusion.c:1867-1876 | One leaky stage keeps \|x\| ≤ Bτ when fed at most B and moves x by at most 2B·dt |
| SeaState.OutputBounded | src/fusion.c:1849-1888 | What heave_update returns is within 2Aτ² |
| SeaState.HighPassStopsDc | src/fusion.c:1878-1885 | A displacement that stands still is not passed: the output only decays by τ/(τ+dt) |
| SeaState.HeaveEstimator.Update | src/fusion.c:1849-1888 | Each call appends its sample to the history, returns the run's output negated, 0 when disabled, and settles at exactly the settling count |
| SeaState.VarianceIsExact | src/fusion.c:1929-1934 | ew_stat's variance is the exactly weighted variance of the whole history about its weighted mean |
| SeaState.MeanIsWeighted | src/fusion.c:1929-1934 | Its mean is the weighted mean of the history |
| SeaState.SpreadAbout | src/fusion.c:1929-1934 | About any centre c the weighted spread is the variance plus (mean − c)² |
| SeaState.WeightsSumToOne | src/fusion.c:1929-1934 | The weights of a history, the zero start included, add up to one |
| SeaState.VarianceBounds | src/fusion.c:1936-1957 | With every step in (0, τ] and samples within A the variance lies in [0, A²] |
| SeaState.LongStepBreaks | src/fusion.c:1943-1946 | A step keeps a non-negative variance if and only if it is no longer than τ, or variance and deviation are both zero |
| SeaState.LongStepExample | src/fusion.c:1929-1946 | A first sample of 1 fed over twice the window leaves the variance at −2 |
| SeaState.StatsAreSeparate | src/fusion.c:1947-1952 | Each of the six statistics is the run over its own measurement |
| SeaState.SeaStateEstimator.Update | src/fusion.c:1936-1957 | One call feeds all six with gain dt/τ and nothing when disabled |
| SeaState.SeaStateEstimator.WaveHeight | src/fusion.c:1959-1963 | Zero until settled, then, while the variance is not negative, the non-negative number whose square is sixteen times the exact variance of heave; it is not negative while no step outlasts τ |
| SeaState.SeaStateEstimator.WavePeriod | src/fusion.c:1965-1971 | Zero below the oscillation floor, above it period²·m2 = 4π²·m0 |
| SeaState.WaveHeightBounded | src/fusion.c:1959-1963 | Fed with heave bounded as HeaveStaysBounded says, the wave height is at most 8Aτ² |
| Mpsse.ParseAll | src/bus_ft232h.c:76-121 | The bytes of any list of commands parse back to that list |
| Mpsse.ParseEncoded | src/bus_ft232h.c:291-297 | A command's bytes, whatever follows them, parse to it and leave what follows |
| Mpsse.LenRoundTrip | src/bus_ft232h.c:815-834 | The 16-bit length field holds one less than the count and gives every count from 1 to 65536 back |
| Ft232h.Stream.Emit | src/bus_ft232h.c:291-297 | A command that fits is appended, with the reply it owes; one that does not marks the stream failed and writes nothing past the buffer |
| Ft232h.Stream.Room | src/bus_ft232h.c:329-333 | When it succeeds the bytes asked for and a flush opcode fit or the buffer is empty; it flushes exactly when they do not fit |
| Ft232h.Stream.Flush | src/bus_ft232h.c:305-322 | The commands queued are run once, in order, followed by a flush opcode, and exactly the replies they owe are collected, unless a call fails; a failed write runs nothing and keeps the queue, and what has run is always a beginning of what was emitted |
| Ft232h.Stream.Collect | src/bus_ft232h.c:258-278 | Reply bytes are stored in order with the two status bytes of each packet dropped, however they are split into packets; when what is owed is asked for it fails only by a failed read or a time-out |
| I2cBus.TransactionMeans | src/bus_ft232h.c:345-383 | On a free bus the emitted waveform is heard as start, address and W, the bytes, a repeated start, address and R, the reads with an acknowledge on all but the last, and stop, and leaves the bus free |
| I2cBus.StartHeard | src/bus_ft232h.c:350-355 | A start, from a free bus or between bytes, is heard as a start and nothing else |
| I2cBus.StopHeard | src/bus_ft232h.c:357-363 | A stop is heard as a stop and frees the bus |
| I2cBus.ShiftOutHeard | src/bus_ft232h.c:366-373 | Bits shifted out are heard as those bits, in order |
| I2cBus.ShiftInHeard | src/bus_ft232h.c:376-383 | Each bit clocked in is heard as a released bit the chip samples |
| Ft232h.TransactionAnswers | src/bus_ft232h.c:685-710 | A transaction's replies are one acknowledge bit per byte written, in order, then the bytes read |
| Ft232h.I2cTransfer | src/bus_ft232h.c:665-726 | For every txlen and rxlen, unless a USB call fails, the chip runs exactly the transaction over all flushes and the bus hears it; the result is 0 iff every written byte was acknowledged, ENXIO iff the first refusal is an address, and the bytes returned are those read. On a healthy device no call fails. An answer that is no USB error always comes with a transaction that ran up to some byte and its stop, the whole of it iff no call failed; so it can be trusted when the transaction fits the buffer, and a write of 335 bytes or more whose first flush fails on the write gets one it cannot trust |
| Ft232h.NothingServes | include/ft_usb.h:57-69 | A device whose calls all succeed in full is healthy, so what is claimed of healthy devices is claimed of some |
| SpiBus.MessageMeans | src/bus_ft232h.c:880-945 | The emitted commands hold exactly one chip select low throughout, clock the legs' bytes in order, and release it |
| SpiBus.DataHeard | src/bus_ft232h.c:913-935 | One data command clocks its bytes most significant bit first and touches no chip select |
| Ft232hSpi.SpiPayload | src/bus_ft232h.c:815-834 | A chunk goes out as given for 8-bit words, pairwise exchanged for 16-bit ones, and as zeros when there is nothing to send |
| Ft232hSpi.SpiScatter | src/bus_ft232h.c:837-854 | Every reading leg gets its own slice of the reply bytes, words put back in host order, and no other leg gets any |
| Ft232hSpi.SpiMessage | src/bus_ft232h.c:865-950 | For 1 to 4 legs of any length, unless a USB call fails, the chip runs the divisor given and the message, however it is chunked, and nothing else; the bus hears it, each leg gets its own bytes, and a message that fails the checks sends nothing. On a healthy device no call fails. Whatever fails, what runs begins with the divisor and holds no other |
| Ft232hSpi.LoopbackReturns | src/bus_ft232h.c:837-950 | On a wire that loops back, a leg that sends and reads gets what it sent |
| SpiClock.DivSpiExact | src/bus_ft232h.c:145-151 | The divisor for a legal hz fits 16 bits, is the smallest whose exact clock does not exceed hz, and gives a whole-number rate no faster than hz |
| SpiClock.ReprogrammedSlower | src/bus_ft232h.c:906-910 | 4.5 MHz comes out at 4285714 Hz with divisor 6, and 4285714 Hz asked for again takes divisor 7 |
| SpiClock.EmissionClock | src/bus_ft232h.c:906-945 | A message runs at the divisor it begins with, or else at the one in force |
| SpiClock.RanClock | src/bus_ft232h.c:906-945 | However much of a message the chip has run, its clock is the message's divisor once it has run any of it, and the one before while it has run none |
| SpiClock.ReprogrammedDivisor | src/bus_ft232h.c:906-910 | Recomputing the divisor from the rate it came out at gives the same one if and only if divisor plus one divides 30 MHz, and never a faster clock |
| Ft232hTable.KeptOpen | src/bus_ft232h.c:625-636 | A new handle with its device's count raised keeps counts, keys, protocols and modes consistent |
| Ft232hTable.KeptClose | src/bus_ft232h.c:638-655 | So does removing one, the device going with its last handle |
| Ft232hTable.KeptSetup | src/bus_ft232h.c:735-812 | So does configuring a handle at its device's mode |
| Ft232hTable.Tables.Open | src/bus_ft232h.c:526-636 | Each error is returned exactly in its case, a USB error being one that came of an unopened dongle that was not found, not lockable or failed a call; a failed open leaves every handle and every count as they were; a successful one adds one handle, on a device of its key and protocol, and one reference, and has sent a dongle nothing had open its whole configuration, and any other nothing |
| Ft232hTable.Tables.Close | src/bus_ft232h.c:638-655 | The handle is freed and its device's count drops by one; a token out of range changes nothing |
| Ft232hTable.Tables.SpiSetup | src/bus_ft232h.c:735-812 | Unless a USB call fails it succeeds exactly for a configurable handle, mode and rate, sends that divisor and the rest levels, and leaves the chip at a clock no faster than asked; it changes no other handle |
| Ft232hTable.Tables.SpiMsg | src/bus_ft232h.c:865-950 | On a token, unless a USB call fails, the chip runs the message, with a new divisor exactly when another clock was recorded, and it is heard and answered; an unfit token or message sends nothing. Whatever fails, a message that succeeds runs no faster than its handle asked for when the record of the clock was right, and the record is right afterwards iff the message brought a divisor and any of it got through, or the clock was already no faster than the handle's |
| Ft232hTable.Tables.MissedClock | src/bus_ft232h.c:904-910 | With the chip at 30 MHz, one failed write leaves a 1 MHz handle's clock recorded but not programmed, and its next message runs at 30 MHz |
| Ft232hTable.Tables.SpiTraffic | src/bus_ft232h.c:865-950 | Whatever messages for whatever handles of one healthy dongle, the chip runs exactly those in turn, with a divisor wherever the clock changes hands, the bus hears them all, each runs at a clock no faster than its own handle asked for, and each reading leg gets its own bytes |
| Ft232hTable.Tables.I2cXfer | src/bus_ft232h.c:665-726 | On a token, unless a USB call fails, the chip runs exactly the transaction, the bus hears it and is free again, and the result, errno and bytes are what the wire said; anything but an open I2C handle is refused; an answer after a failed call is as I2cTransfer says |
| Ft232hTable.MpsseInit | src/bus_ft232h.c:420-461 | When it succeeds the dongle has been sent exactly its protocol's configuration and the bad command that proves it listens; with nothing left over from before it succeeds iff no call fails |
| Ft232hTable.ConfigFree | src/bus_ft232h.c:389-396 | A configured I2C dongle leaves a free bus free and nothing is heard on it |
| Ft232hTable.SetupQuiet | src/bus_ft232h.c:782-802 | After a mode is set up nothing is selected and the clock rests at that mode's level |
| Crc32.Crc32Update | include/crc32.h:37-46 | The double loop computes Update, for any starting value and any bytes |
| Crc32.Crc32Ieee | include/crc32.h:53-56 | The whole checksum is the final complement of a run from all ones |
| Crc32.UpdateAppend | include/crc32.h:32-46 | Feeding chunks in turn is feeding their concatenation |
| Crc32.UpdateIsSerial | include/crc32.h:37-46 | The byte-wise loop is the 32-bit shift register of clause 3.2.9 of IEEE Std 802.3 fed one bit at a time, low bit first |
| Crc32.WordAtOnce | include/crc32.h:37-46 | n bits fed singly are the n-bit word exclusive-ored in, then n shifts |
| Crc32.ShiftInjective | include/crc32.h:37-46 | One shift is a bijection of the register |
| Crc32.SerialLinear | include/crc32.h:37-46 | Registers and streams that differ by d and e end up differing by d's run on e |
| Crc32.BurstDetected | include/crc32.h:37-46 | Two streams that differ, and only within 32 consecutive bits, leave different registers from any start |
| Wire.ByteStep | include/crc32.h:37-46 | A byte step consumes the low byte of a word and leaves the rest of it to come |
| Wire.WordStep | include/crc32.h:37-46 | Four byte steps on a little-endian word are one 32-bit step |
| Wire.CodewordResidue | include/crc32.h:48-56 | A buffer ends in its own CRC if and only if the whole of it runs the register to one fixed residue |
| Wire.SealedIsCodeword | src/capture.c:161-181 | Appending the little-endian CRC of a buffer makes a codeword |
| Wire.BurstBreaksCodeword | include/crc32.h:37-56 | No change within 32 consecutive bits, the CRC field included, turns a codeword into another |
| Wire.RoundTrip16 | include/wire.h:43-86 | 16-bit little-endian stores and loads undo each other |
| Wire.RoundTrip32 | include/wire.h:49-92 | 32-bit ones too |
| Wire.RoundTrip64 | include/wire.h:57-100 | 64-bit ones too |
| StreamClient.CheckPacket | lib/libimud.c:84-94 | A buffer passes exactly when size, magic, version, length field and CRC are all right |
| StreamClient.BurstRejected | lib/libimud.c:84-94 | A valid 288-byte packet changed within any 32 consecutive bits is always refused |
| StreamClient.DecodePacket | lib/imud_client.h:239-317 | Decoding through the moving pointer fills every field from its own bytes |
| StreamClient.DecodeLosesNothing | lib/imud_client.h:239-317 | Encoding the decoded packet gives the 288 bytes back |
| StreamClient.Client.ImudRead | lib/libimud.c:339-402 | 0 comes with the next valid packet and only after a readable event, 1 only for a time-out, a signal or nothing left to happen, −1 only for a failed call or the end of the stream; no byte and no datagram is lost or doubled, something is taken each time the descriptor is readable, and rx_got stays below 288 |
| StreamClient.Client.ReadAll | lib/libimud.c:339-402 | Reading until the connection is over or nothing more happens delivers exactly the valid aligned blocks of the stream, or the valid datagrams, in order and however they are split: all of them when the descriptor is readable as often as there are bytes, or datagrams, before a call fails |
| StreamClient.Client.Reconnect | lib/libimud.c:404-413 | A new connection starts at a block boundary: the partial frame is dropped |
| StreamClient.TrueHeading | lib/imud_client.h:331-343 | The course in [0, 360) equal to heading plus declination up to whole turns, and −1 exactly when the declination is unknown or the sum out of range |
| Capture.HeaderRoundTrip | src/capture.c:35-66 | Decoding an encoded header gives it back |
| CaptureFormat.FrameRoundTrip | src/capture.c:68-82 | So for the 12-byte frame |
| CaptureFormat.ParsePayload | src/capture.c:84-112 | A stored IMU, mag or mark payload parses back to its record, whatever fields a later writer appends |
| CaptureRuns.RoundTrip | src/capture.c:161-411 | Any list of records written reads back as that list, then 0 |
| CaptureRuns.CutRoundTrip | src/capture.c:161-411 | Cut at any byte past the header, a written file reads as exactly the records wholly inside the cut, then 0 |
| CaptureRuns.CutReadsWhole | src/capture.c:343-411 | So for any sealed items, unknown types included |
| CaptureRuns.WhollyInsideLongest | include/capture.h:28-37 | The items inside a cut are the longest run from the front that fits |
| CaptureRuns.AdditionsTransparent | include/capture.h:28-37 | Unknown types between records and fields appended under the CRC change nothing delivered |
| CaptureRuns.BurstStep | src/capture.c:287-411 | A sealed record changed within 32 bits that avoid its length is never delivered and never skipped: it is a CRC error, or the end of file when its type now needs a longer payload |
| CaptureRuns.DamagedMarkEnds | src/capture.c:343-411 | Every mark record is such a case: with its type changed from 3 to 1 it reads as the end of the file |
| CaptureRuns.DamageStopsReading | src/capture.c:287-411 | In a file whose header promises CRCs, everything before such a record is delivered and nothing from it on |
| Capture.Writer.WriteRec | src/capture.c:161-181 | The file grows by frame, payload and the CRC of both, and the byte count by as much |
| Capture.Reader.Open | src/capture.c:238-263 | It opens exactly for the right magic, version and header length, with the cursor past the header it claims |
| Capture.Reader.ReadPayloadCrc | src/capture.c:287-311 | The scratch-buffer loop keeps what fits, skips the rest and accepts exactly when the running CRC matches |
| Capture.Reader.CapReadPayload | src/capture.c:319-334 | It takes the sealed or the legacy path as the frame's flag says |
| Capture.Reader.Next | src/capture.c:343-411 | It returns the next record, 0 at the end and CAP_ERR_CRC at damage, leaving the cursor where the format says |
| Capture.Reader.ReadEverything | src/capture.c:343-411 | Reading until it stops gives all the format says the file holds, with the matching result |
| Capture.Reader.Rewind | src/capture.c:413-417 | The cursor returns to the first byte after the header |
| Capture.WriteThenRead | src/capture.c:119-411 | Writing any records under any header fields, closing, opening and reading gives header and records back, then 0, and again after a rewind |
| Capture.Ring.Push | src/capture.c:440-456 | A full ring drops the newest and counts it; otherwise the record joins at the back |
| Capture.Ring.Pop | src/capture.c:472-483 | The oldest records, at most max, leave in order and the rest stay |
| Gauss.Gauss4 | src/cal_math.c:26-58 | 0 leaves the one and only solution of the system given; −1 exactly when some column has no pivot of 1e-12, and x is then untouched |
| Gauss.EliminateKeeps | src/cal_math.c:47-50 | Taking a multiple of one equation from another changes no solution |
| Gauss.SwapKeeps | src/cal_math.c:40-43 | Nor does exchanging two |
| Gauss.TriangleUnique | src/cal_math.c:53-57 | Back substitution gives a triangle's only solution |
| SphereFit.Accum.Add | src/cal_math.c:60-69 | The running sums account for the samples added so far, in whatever order |
| SphereFit.SphereFit | src/cal_math.c:98-120 | For samples on one sphere a successful fit returns that centre and radius; for any samples its answer solves the normal equations; it fails exactly for fewer than five samples, a missing pivot or a squared radius that is not positive |
| SphereFit.CircleFit | src/cal_math.c:135-164 | The same for a circle through the horizontal parts, taken about their mean |
| SphereFit.LeastSquares | src/cal_math.c:98-120 | A solution of the normal equations has the least sum of squared residuals of all |
| SphereFit.SoftIronOnSphere | src/cal_math.c:172-195 | The block's square is the fitted P, which is the ellipsoid's own when the samples lie on one; it fails exactly when the fit is not positive definite or has no pivot |
| SphereFit.RootSquares | src/cal_math.c:189-193 | (P + √det·I) / √(tr P + 2√det) squares to P |
| SwingFrame.EulerDegToRot | src/config.c:676-698 | Whatever the three angles, the matrix built by the product loops is a proper rotation |
| SwingFrame.EulerProper | src/config.c:676-698 | The product of the three axis rotations is orthonormal with determinant one |
| SwingFrame.AcceptedProper | src/config.c:646-673 | validate_rotation accepts every proper rotation and refuses an orthonormal matrix of the other handedness |
| RotationCheck.AcceptedExactly | src/config.c:646-673 | It accepts exactly the matrices whose RᵀR is within 1e-6 of the identity, in the norm it takes, and whose determinant is not negative |
| RotationCheck.AcceptedNear | src/config.c:646-673 | A matrix it accepts has every entry of RᵀR within 1e-6 of the identity's and a determinant between 0.99 and 1.01 |
| SwingFrame.ZOntoRotates | src/cal_math.c:224-230 | z_onto is a rotation and takes body Z onto the unit vector given |
| SwingFrame.AccelDownUnit | src/cal_math.c:235-245 | The vertical taken from gravity is a unit vector below the horizon |
| SwingFrame.PlaneDownUnit | src/cal_math.c:255-275 | So is the one taken from the swing plane |
| SwingFrame.SwingAxesOrthonormal | src/cal_math.c:276-287 | R = QᵀM is orthonormal and M Rᵀ = Q |
| SwingFrame.StoredPairCorrects | include/cal_math.h:211-215 | For every reading m the stored board-frame pair satisfies M·S_board·(m − h_board) = Q·S·(R·m − c) |
| SwingFrame.AnySwingCorrects | src/cal_math.c:247-405 | From any proper mount and whichever vertical is chosen, Q is a rotation taking Z onto it, R is orthonormal, and the stored pair corrects every reading as the swing frame does |
| SwingFrame.SwingAxesInto | src/cal_math.c:276-287 | The loops leave QᵀM in the array |
| SwingFrame.SoftBoardInto | src/cal_math.c:385-403 | The loops leave RᵀSR in the array |
| SampleKeep.Keeper.Offer | src/cal_math.c:416-431 | A sample is kept exactly when its index is a multiple of the stride; the stride doubles only when the buffer is full |
| SampleKeep.Keeper.EvenSpread | include/cal_math.h:227-244 | After any number of offers the buffer holds the samples at 0, stride, 2·stride and so on, n = ⌈seen/stride⌉ of them, and more than half the buffer once the stride has grown |
| SampleKeep.Keeper.Compact | src/cal_math.c:421-425 | Compaction in place keeps every other sample |
| Allan.AllanDeviation | src/cal_math.c:583-614 | Each octave's point is the Allan deviation by differences of adjacent cluster means, over every octave that fits or the first maxPts |
| Allan.SecondDifference | src/cal_math.c:590-606 | The second difference of the integral is τ times the step between adjacent cluster means |
| CaptureLoad.Load | src/cal_capture.c:30-124 | Corrupt and too-short captures are told apart; otherwise the outputs are the block averages of the settled readings, at most max_samples of them, and the span, rates and skip count are those of the records |
| CaptureLoad.IntegralKept | include/cal_capture.h:30-33 | At every block boundary the decimated outputs, each standing for a block, add up to the raw readings |
| CaptureLoad.SkippedOrSettled | src/cal_capture.c:100-103 | Every IMU record is skipped or settled, never both |
| CaptureLoad.BlocksFit | src/cal_capture.c:60-75 | The decimation chosen leaves at most max_samples outputs |
| CalFile.Reload | src/cal.c:226-465 | For every subset of the five sections, a written text loads as the same flags and the same printed numbers in the same slots, defaults elsewhere, exactly when it passes the guards |
| CalFile.CutLoadsOrRefuses | src/cal.c:201-210 | A prefix of a written file loads if and only if it holds the last brace, and then loads everything |
| CalFile.TextFits | src/cal.c:244-252 | A written text always fits the loader's buffer |
| CalJson.GuardsAgree | src/cal.c:47-136 | What the writer's gated guards let out the loader's stricter ones let in, and nothing else, overflow being checked at every operation |
| CalRoundTrip.SectionsLoad | src/cal.c:270-318 | Searching and parsing the written text section by section gives exactly what was present |
| CalRoundTrip.FileClosed | src/cal.c:201-210 | A written text is one closed object |
| CalRoundTrip.CutOpen | src/cal.c:201-210 | Cut anywhere before its last brace it is not |
| CalRoundTrip.KeysOfParts | src/cal.c:384-446 | Each section prints only its own names, so a search for an absent section finds nothing |
| JsonScan.StrStrIsFindKey | src/cal.c:270-318 | Searching the printed characters for a quoted name stops exactly at the key of that name, although other names contain its letters |
| JsonScan.ParseArrayIsTokens | src/cal.c:150-174 | Scanning printed characters for an array gives the numbers printed, up to the same closing bracket |
| JsonScan.StrtofPrinted | src/cal.c:166-171 | A printed number is taken back whole, after white space and up to a blank |
| JsonScan.StrStrFirst | src/cal.c:181-187 | strstr returns the first occurrence and fails only when there is none |
| CalRoundTrip.FieldOfSoft | src/cal.c:270-278 | The nested block is read as nine numbers, row by row |
| CalFile.JsonObjectClosed | src/cal.c:201-210 | True exactly when braces never close below zero, at least one opens and all close |
| CalFile.ParseFloatArray | src/cal.c:150-174 | The count is that of the scanned block, −1 for one unclosed or holding anything else, and the first n numbers are in their slots |
| CalFile.LoadArray | src/cal.c:181-195 | 1, 0 or −1 for a whole, absent or broken array, the slots filled when whole and unchanged when absent |
| CalFile.Guarded | src/cal.c:47-136 | Both guards' loops, axis by axis at each probe, accept exactly the usable records |
| CalFile.Calibration.CalLoad | src/cal.c:226-348 | 0 with the record holding what the text says, or the defaults without a file; −1 exactly when unreadable or refused |
| CalFile.Disk.CalWrite | src/cal.c:350-483 | After every step on the way cal.json is the old file or the whole new text, never part of it, and it ends as the new one exactly when every step succeeds |
| CalFile.Disk.PrintAll | src/cal.c:383-448 | The prints, in order, make the text |
| Bytes.ByteValue | src/bus_ft232h.c:145-151 | A number below 256 survives its cast to a byte |

## Left out

- Floating-point rounding, NaN and infinity: filter, sea state and calibration are over exact reals, and mekf_sanitize's trigger is a choice made from outside.
- `HUBER_VARIANT` other than 0 and `WAVE_TRANSPORT`: alternative builds that are not shipped.
- mekf_get_state, mekf_accel_probe, and the roll and pitch readings of the sea state: they only read what the model already fixes, the last in the form of WaveHeight and WavePeriod.
- FusionNull.AccelKeepsHeading: the variance about the vertical is compared before the reset Jacobian, which turns the whole covariance with the attitude.
- FusionGain.MagNeverInflates: leaves out updates with a protected axis, whose projected gain need not lower every variance, only keep a covariance.
- CaptureRuns.BurstStep: leaves out a changed length field, which moves the CRC and is caught only with probability.
- Ft232h.I2cTransfer: once a USB call has failed it says what the chip ran, not what an answer then means, since the replies it is read from may be ones that never came.
- Ft232hTable.Tables.SpiMsg: once a USB call has failed it says what divisor the chip has been sent, but not how much of the message the bus heard.
- Ft232h.Usb.Write: a USB write either takes all its bytes or fails; a short write is not told apart from a failed one.
- Ft232hTable.MpsseInit: the resets, purges and latency setting whose results the source ignores are left out.
- parse_node: a node arrives parsed, with a positive bus clock and a chip select from -1 to 4.
- The libftdi, usbfs and IOKit transports, and bus_linux and bus_null: calls into other systems.
- Mutexes and threads: each locked section is one step.
- Ft232hSpi.SpiPayload: 16-bit words are taken in the byte order of a little-endian host.
- Dialing, reconnection timing and fill_data's copy of decoded fields: no state beyond the packet.
- StreamClient.TrueHeading: works on reals; the comparison that also refuses NaN is not modelled.
- I/O errors inside a capture file, rotation, pruning and file names: a file is its bytes.
- CaptureLoad.Load: keeps one array of readings where the source keeps one per axis, takes the reader's records rather than a file, and never runs out of memory.
- Allan.AllanDeviation: allan_characterize, which only reads two of its points, is left out.
- plane_fit, the choice between level and sphere fits, extents, dominant_axis, cal_accel_fit and gyro_temp_fit: heuristic thresholds or further linear fits of the same kind.
- SphereFit.SphereFit: says nothing of how close a nearly singular fit comes; a pivot of 1e-12 is taken as exact.
- JsonScan.Strtof: decimal text only; hexadecimal floats and the words inf and nan, which strtof also takes, are not modelled.
- CalJson.GuardsAgree: a calibration is its printed numbers, so the guards read those; printf's rounding, and float rounding inside the range, are not modelled.
- CalFile.Disk.CalWrite: the length check on the path and the sync of the directory are left out.
- Capture header contents beyond their round trip, gmtime, CLI parsing, configuration keys, logging and the interactive calibration modes.
- Allan deviation's and the filter's tuned constants are carried over, not judged.
