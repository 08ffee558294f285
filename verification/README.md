# Mirror support system: control logic, modelled and proved

The host program of the telescope's primary mirror support system talks to 156 force actuators, six hardpoints and
their monitors over five bus subnets, raises and lowers the mirror, and tests its actuators. This project models the
decisions it takes and proves what they guarantee. The hardware, the network and the clock are parameters.

## What is modelled

- **Bus lists** (`Modbus`, `ModbusBuffers`, `BusLayout`, `BusInputs`, `RoundRobin`, `Accounting`, `Wire`, `BusLists`,
  `BusTheorems`). A list builds one word buffer with five length-prefixed frames and then, every control cycle, rewrites
  only the volatile words in place. `BusLists.BusList` is that object: a word array, recorded indices, the rotation of
  the server status query, the LVDT clock and the expected response counts. `BusLayout.Render` is the independent
  definition of the right contents; `Modbus.Scan` and `BusLayout.Parse` read the words back the way the FPGA would, and
  `Wire` says in bytes what they then must be.
- **Hardpoints** (`Hardpoints`, `HardpointMeaning`, `PositionControl`, `HardpointRuns`, `CoordinatedMove`,
  `WaitOnce`). `Hardpoints` says what each public call does to six step motors, as values, and `HardpointMeaning` what
  that means in terms of settings and measurements alone. `PositionController` is the object, proved against both; the
  other modules prove properties of all sequences of calls.
- **Raising and lowering** (`RaisingInfo`, `Settling`, `Deadlines`, `RaiseLower`): the transfer of the weight, the
  settle counters that end it, and the deadline across pauses.
- **Tests** (`BumpTests`, `HardpointTests`): both sequencers, over all runs with arbitrary measurements and clocks.
- **Numbers** (`FixedPoint`, `RawDump`, `Setpoints`): fixed-point conversion on 64-bit words, the raw accelerometer
  recording and its decoder, and the conversion of forces to cylinder setpoints.
- `Arithmetic` and `Sequences` hold shared definitions and helper lemmas.

## How

Objects of the program are classes whose methods change fields and arrays; every such method equates the new state
with a function of the old one, and the properties are lemmas about those functions and about sequences of them. The
functions themselves are pinned down by lemmas that use none of them, many with names ending in `Exactly`.
Some modelling choices:

- The three bus lists share their statements but for the broadcasts, so one class with a `kind` stands for them. Their
  index tables are sequence fields, the buffer and the counts are arrays.
- Arrays over the same index (six hardpoints, 156 actuators) are one array of records. In bump tests the secondary,
  X and Y tables, which map actuators one to one, are folded into the record of the actuator.
- Floating point is `real`; a cast to an integer truncates toward zero. Where the program casts 0/0 (step limits of a
  move that asks for nothing) the result is the arbitrary setting `nanCast`.
- Step arrays on the stack that the program does not initialise are the arbitrary input `stack`, as are the five
  bytes the accelerometer decoder does not read.
- NaN deadlines are `Unset`. Wait times are below 4 095 000 microseconds, the largest the wait words can hold, and the
  step maximum is 1 to 32767, what the 16-bit command can hold.
- Preconditions on topologies: at least one enabled actuator on a subnet that has any, addresses and data indices
  within the tables they index, data indices distinct. The disabled set is fixed.
- The bump test model identifies the availability of statistics with the status computed from them: statistics are
  cleared when data is added, and computed by nothing but the status.

## What the proofs found

The code is modelled as it is. Where an expected property does not hold, the exact condition is proved instead.

- *Freeze list, mixed subnets.* `FreezeSensorBusList` records one command index per subnet but writes two commands when a
  subnet has both actuators and hardpoints; the update then damages the hardpoint command
  (`BusTheorems.CacheRefinement`, `MixedIsStale`).
- *Step bytes.* Commanded steps outside -127 to 128 do not survive the cast to a signed byte, although the configured
  maximum may be larger (`BusInputs.StepOfHardpoint`). The 78 step bytes are uninitialised but for the hardpoints' own.
- *Waiting in tension* counts to the setting for compression (`PositionController.cpp:275-276`); the setting for
  tension is loaded and checked but not used. A 16-bit counter makes large settings unreachable
  (`WaitOnce.NeverResumes`).
- *Fine positioning.* `PositionController.h:170-173` documents that it ends when the difference stays within two counts
  for two loops. The code wants two readings exactly on target, not necessarily in a row
  (`WaitOnce.FineEndsExactly`, `FineEndsWithoutConsecutive`).
- *Settling.* The timeout counts polls of settled hardpoints too, so "timed out" does not mean "never settled"
  (`Settling.TimedOutExactly`, `TimedOutAfterSettling`).
- *Second pause.* A pause is charged from the start of the operation, not from the last resume
  (`Deadlines.TimesOutExactly`, `PausedTimeNotCounted`, `SecondPauseOvercharges`).
- *Paused lowering* runs the loop of the raise controller (`RaiseLower.PausedLoweringMayRaise`).
- *Bump tests.* A warning after an error turns the outcome back to passed; stages that time out without data are not
  judged, so a test with no data at all passes, and the timeout outcome is never reported (`BumpTests.PassedExactly`,
  `NoDataPasses`). Cylinder tests never offset anything, because the offset component knows axes X, Y and Z only
  (`CylinderTestsOffsetNothing`). A retrigger can make an actuator push both ways, or leave it with an offset after its
  test; `FaultlessExactly` says which triggers do, exactly.
- *Aborted raises* count as having reached the lower position, so lowering gives up weight without any move
  (`RaiseLower.LowerSafety`).
- *Hardpoint tests* never fail for want of a switch (`HardpointTests.FailsOnlyOnEmptyMove`).
- *Fixed point.* The saturating branch of the encoder is guarded by a test of the wrong width for signed types
  (`FixedPoint.SaturatesExactly`, `HalfBelowZero`).
- *Setpoints.* The conversion named after 24 bits does not keep to them, the limits must
  (`Setpoints.ClampedReachesIlc`).

## Model

| member | source | states |
|---|---|---|
| BusTheorems.CacheRefinement | src/LSST/M1M3/SS/BusLists/RaisedBusList.cpp:162-249 | For every list kind, topology, earlier state and data: after one update the patched buffer equals a rendering from scratch with the same counter, data, status targets and LVDT choice if and only if no freeze list subnet has both force actuators and hardpoints. |
| BusTheorems.RunRenders | src/LSST/M1M3/SS/BusLists/RaisedBusList.cpp:47-249 | For the views of any such run with at least one update, whatever the data of the earlier cycles: they render like a from-scratch rendering of the last data with the status query where the rotation puts it and LVDTs as the sampling clock says; the length is fixed by list kind and topology. |
| BusTheorems.BuildAndUpdate | src/LSST/M1M3/SS/BusLists/RaisedBusList.cpp:47-249 | The list object itself, built and then updated any number of times, other lists having left the shared counter anywhere in between: its views and clock are those of the run, its length is fixed, and without mixed freeze subnets the words of its buffer are the from-scratch rendering of the last cycle. |
| BusTheorems.MixedIsStale | src/LSST/M1M3/SS/BusLists/FreezeSensorBusList.cpp:121-145 | On a freeze list subnet with both actuators and hardpoints the update overwrites the hardpoint command with the pneumatic one: its frame is then wrong for every counter and data. |
| BusTheorems.ResponsesAccounted | src/LSST/M1M3/SS/BusLists/RaisedBusList.cpp:90-109 | In every state a list object can be in, each expected response entry equals the number of replies the words in the buffer, split into frames and executed as the FPGA would, ask of that device: 0, 1 or 2 for actuators, 2 for hardpoints, 3 or 4 for monitors. |
| BusTheorems.TargetsRotate | src/LSST/M1M3/SS/BusLists/RaisedBusList.cpp:195-212 | After n updates the status target of a subnet is n steps of the rotation from its first enabled actuator. |
| BusLists.BusList.BuildBuffer | src/LSST/M1M3/SS/BusLists/RaisedBusList.cpp:47-160 | From any state the buffer is rebuilt. Split into frames and executed, its words send the given data: to each actuator its setpoints and valve byte 255 exactly if opened, or the freeze command, to each hardpoint its steps or the freeze command, then every query by its function code, the first enabled actuator of each subnet being asked for its status and no LVDT. Indices, rotation, counts and clock agree. |
| BusLists.BusList.Update | src/LSST/M1M3/SS/BusLists/RaisedBusList.cpp:162-249 | The same of an update: the counter advanced modulo 16, the new data in every frame, the status query at the new place of the rotation, LVDTs asked on the subnets where the clock is zero. The length stays, and only a freeze list spoils a mixed subnet, as stated there. |
| Wire.BodySends | src/LSST/M1M3/SS/BusLists/RaisedBusList.cpp:63-160 | A frame holding the broadcasts of a list, executed, sends literally the bytes it should, frame by frame, checksums included. |
| Wire.DemandSlots | src/LSST/M1M3/SS/ILC/ILCMessageFactory.cpp:132-149 | Header and setpoints of a force demand, the most significant byte first, each in its own slot. |
| Wire.ViewTransmits | src/LSST/M1M3/SS/BusLists/RaisedBusList.cpp:86-158 | Function codes and order of all queries of a subnet. |
| BusLists.BusList.UpdateSubnet | src/LSST/M1M3/SS/BusLists/ActiveBusList.cpp:152-230 | Only this subnet changes: new broadcasts, next status target, LVDT query or filler as the clock says. |
| BusLists.BusList.PatchFirst | src/LSST/M1M3/SS/BusLists/FreezeSensorBusList.cpp:121-145 | The command written before the status query: a freeze list writes one freeze command per subnet, pneumatic when it has actuators, wherever the single recorded index points. |
| BusLists.BusList.PatchFa | src/LSST/M1M3/SS/BusLists/ActiveBusList.cpp:158-183 | In-place rewrite of the force demand leaves every other word alone and renders the new demand. |
| BusLists.BusList.PatchStatus | src/LSST/M1M3/SS/BusLists/RaisedBusList.cpp:195-212 | The status query moves to the next enabled actuator and the extra expected response moves with it. |
| BusLists.BusList.PatchHp | src/LSST/M1M3/SS/BusLists/RaisedBusList.cpp:213-226 | In-place rewrite of the hardpoint broadcast. |
| BusLists.BusList.PatchMonitors | src/LSST/M1M3/SS/BusLists/RaisedBusList.cpp:227-247 | LVDT queries or fillers are rewritten, 4 or 3 responses entered, the clock moved from 4 down to 0 and round. |
| BusLists.BusList.BuildSubnet | src/LSST/M1M3/SS/BusLists/BusList.cpp:45-75 | Appends one complete length-prefixed frame, recording where its volatile parts are. |
| BusLists.BusList.StartSubnet | src/LSST/M1M3/SS/BusLists/BusList.cpp:45-70 | Writes the subnet address, a placeholder for the length, and the software trigger. |
| BusLists.BusList.EndSubnet | src/LSST/M1M3/SS/BusLists/BusList.cpp:72-75 | Appends the interrupt trigger and back-patches the length word. |
| BusLists.BusList.Reset | src/LSST/M1M3/SS/BusLists/RaisedBusList.cpp:47-58 | Counts cleared, index at zero, rotation and clock at zero: nothing has been rendered yet. |
| BusLists.Demand | src/LSST/M1M3/SS/BusLists/RaisedBusList.cpp:63-88 | The setpoint tables of a force demand: one loop over the actuators of the subnet by address. |
| BusLists.MotorSteps | src/LSST/M1M3/SS/BusLists/RaisedBusList.cpp:111-123 | The step bytes of a motor broadcast; bytes of absent addresses keep what the stack held. |
| BusInputs.SlotOfActuator | src/LSST/M1M3/SS/BusLists/RaisedBusList.cpp:63-88 | With distinct addresses every actuator finds its own setpoints in its own slot. |
| BusInputs.SlotOfNobody | src/LSST/M1M3/SS/BusLists/RaisedBusList.cpp:63-88 | Slots of addresses nobody has demand no force. |
| BusInputs.StepOfHardpoint | src/LSST/M1M3/SS/BusLists/RaisedBusList.cpp:111-123 | A motor controller reads its commanded steps with the sign swapped if and only if they are within -127 to 128. |
| BusLayout.PatchFaBroadcast | src/LSST/M1M3/SS/BusLists/RaisedBusList.cpp:168-193 | Overwriting three words into a frame with a demand of the same length is the frame rendered with that demand. |
| BusLayout.PatchTarget | src/LSST/M1M3/SS/BusLists/RaisedBusList.cpp:195-212 | Overwriting the status query in place is the frame rendered with another target. |
| BusLayout.PatchHpBroadcast | src/LSST/M1M3/SS/BusLists/RaisedBusList.cpp:213-226 | Overwriting the hardpoint broadcast in place is the frame rendered with the new one. |
| BusLayout.PatchLvdt | src/LSST/M1M3/SS/BusLists/RaisedBusList.cpp:227-247 | Overwriting all LVDT queries by fillers, or the reverse, is the frame rendered with the other choice. |
| BusLayout.PatchSubnet | src/LSST/M1M3/SS/BusLists/RaisedBusList.cpp:162-249 | A patch inside one frame of the buffer leaves the other frames and all offsets alone. |
| BusLayout.ParsesToFiveFrames | src/LSST/M1M3/SS/BusLists/BusList.cpp:45-75 | Splitting the buffer by its length words finds exactly the frames of subnets A to E, addresses 9, 10, 11, 12 and 17, in order and to the last word. |
| BusLayout.ParseFrames | src/LSST/M1M3/SS/BusLists/BusList.cpp:45-75 | Splitting undoes framing for any list of frames. |
| BusLayout.BodyTransmits | src/LSST/M1M3/SS/BusLists/RaisedBusList.cpp:47-160 | Executing the words of a frame transmits its commands in order, each with a valid checksum, and nothing else. |
| Modbus.ScanWords | src/LSST/M1M3/SS/Utility/ModbusBuffer.cpp:205-306 | Executing the words of any command list transmits exactly those commands, whatever follows. |
| Modbus.ReadBack | src/LSST/M1M3/SS/Utility/ModbusBuffer.cpp:97-128 | The bytes a checksum is taken over are the bytes written. |
| Modbus.I24RoundTrip | src/LSST/M1M3/SS/Utility/ModbusBuffer.cpp:226-231 | Three bytes hold an integer exactly when it fits 24 bits signed. |
| Modbus.CrcResidue | src/LSST/M1M3/SS/Utility/ModbusBuffer.cpp:105-119 | A receiver that runs the checksum over a frame with its checksum finds zero. |
| Modbus.CrcKnownValue | src/LSST/M1M3/SS/Utility/ModbusBuffer.cpp:105-119 | The checksum of one byte, in which the initial value and every bit of the polynomial show. |
| Modbus.QueryInWords | src/LSST/M1M3/SS/ILC/ILCMessageFactory.cpp:43-49 | Every query word by word, with its function code and wait. |
| Modbus.BroadcastInWords | src/LSST/M1M3/SS/Utility/ModbusBuffer.cpp:276-284 | Every broadcast ends its frame and then waits its own delay. |
| BusLayout.BodyInstructions | src/LSST/M1M3/SS/BusLists/BusList.cpp:66-73 | A frame waits for the trigger first, stamps the time after each broadcast, and interrupts last. |
| ModbusBuffers.MessageFactory.BroadcastForceDemand | src/LSST/M1M3/SS/ILC/ILCMessageFactory.cpp:132-149 | The buffer is overwritten at its index by the words of the demand, 248 of them, and by nothing else. |
| ModbusBuffers.MessageFactory.BroadcastStepMotor | src/LSST/M1M3/SS/ILC/ILCMessageFactory.cpp:65-75 | The same for the 85 words of a step broadcast. |
| ModbusBuffers.MessageFactory.BroadcastFreeze | src/LSST/M1M3/SS/ILC/ILCMessageFactory.cpp:94-111 | The same for the 7 words of either freeze broadcast. |
| ModbusBuffers.MessageFactory.Query | src/LSST/M1M3/SS/ILC/ILCMessageFactory.cpp:43-49 | The same for the six words of every query. |
| ModbusBuffers.MessageFactory.NopReportLvdt | src/LSST/M1M3/SS/ILC/ILCMessageFactory.cpp:265-279 | Filler of the same six words as the query it stands for. |
| ModbusBuffers.ModbusBuffer.FinishFrame | src/LSST/M1M3/SS/Utility/ModbusBuffer.cpp:269-304 | Closes a frame: checksum of the bytes written since its start, end mark, wait. |
| ModbusBuffers.ModbusBuffer.ReadData | src/LSST/M1M3/SS/Utility/ModbusBuffer.cpp:97-103 | The bytes last written, read back from the words. |
| Accounting.FaAccounted | src/LSST/M1M3/SS/BusLists/RaisedBusList.cpp:90-109 | Replies the frame asks of a force actuator: none if disabled, two if status target, else one. |
| Accounting.HpAccounted | src/LSST/M1M3/SS/BusLists/RaisedBusList.cpp:125-135 | Two of an enabled hardpoint. |
| Accounting.HmAccounted | src/LSST/M1M3/SS/BusLists/RaisedBusList.cpp:227-247 | Three of an enabled monitor, four when its LVDT is sampled. |
| RoundRobin.FairRotation | src/LSST/M1M3/SS/BusLists/RaisedBusList.cpp:195-211 | In any E consecutive updates, E being the number of enabled actuators, every enabled one is the status target exactly once and a disabled one never. |
| RoundRobin.TurnOf | src/LSST/M1M3/SS/BusLists/RaisedBusList.cpp:195-211 | The one update of a turn in which a given actuator is asked. |
| RoundRobin.SkipDisabled | src/LSST/M1M3/SS/BusLists/RaisedBusList.cpp:99-105 | The skip loop ends in fewer steps than there are actuators, at the first enabled one, having passed disabled ones only. |
| RoundRobin.NextRank | src/LSST/M1M3/SS/Utility/RoundRobin.h:46-46 | One update moves the target to the next place among the enabled actuators, cyclically. |
| RoundRobin.SamplingSchedule | src/LSST/M1M3/SS/BusLists/RaisedBusList.cpp:227-247 | The clock is shared by all monitor subnets: whether update u samples subnet s, by a congruence modulo five on the monitor subnets visited so far. |
| RoundRobin.SampledEveryFifth | src/LSST/M1M3/SS/BusLists/RaisedBusList.cpp:227-247 | With one monitor subnet: the first update and every fifth after, and no other. |
| HardpointRuns.StepConservation | src/LSST/M1M3/SS/Controllers/PositionController.cpp:551-600 | Over any interleaving of calls, while a hardpoint works off a move: requested = commanded + suppressed at a switch + queued, none of them pointing the wrong way. |
| HardpointRuns.MoveFinishes | src/LSST/M1M3/SS/Controllers/PositionController.cpp:572-600 | The update that ends a move leaves nothing queued: requested = commanded + suppressed. |
| HardpointRuns.CommandsAlwaysSafe | src/LSST/M1M3/SS/Controllers/PositionController.cpp:551-684 | In every reachable state an update commands no more than the maximum, nothing into an operated switch, and while waiting in tension (compression) nothing positive (negative). |
| HardpointRuns.LimitsAlways | src/LSST/M1M3/SS/Controllers/PositionController.cpp:363-427 | In every reachable state a working motor has a step limit between one and the maximum. |
| HardpointRuns.QuickNeverOvershoots | src/LSST/M1M3/SS/Controllers/PositionController.cpp:452-491 | At every moment of quick positioning, whatever else is called, the steps commanded so far are zero or point at the target and stay at least four encoder counts short of it. |
| CoordinatedMove.LongestFinishes | src/LSST/M1M3/SS/Controllers/PositionController.cpp:408-427 | For an accepted move with longest request Q and limit M, the longest hardpoint is done exactly from update ceil(Q/M) on. |
| CoordinatedMove.AllFinish | src/LSST/M1M3/SS/Controllers/PositionController.cpp:408-427 | Every hardpoint is done after ceil(2Q/M) updates. |
| CoordinatedMove.NoneFinishesEarly | src/LSST/M1M3/SS/Controllers/PositionController.cpp:408-427 | A hardpoint whose proportional share is at least one step is not done before ceil(Q/M). |
| CoordinatedMove.QueueLaw | src/LSST/M1M3/SS/Controllers/PositionController.cpp:572-586 | The queue after n updates, in closed form, whatever is measured. |
| WaitOnce.WaitsAtMostOnce | src/LSST/M1M3/SS/Controllers/PositionController.cpp:237-351 | Between two starts of raising or lowering a hardpoint enters a waiting state at most once: tension only at index 1 and 4, compression only at 0, 2 and 3, index 5 never. |
| WaitOnce.FlagsAlways | src/LSST/M1M3/SS/Controllers/PositionController.cpp:758-764 | In every reachable state the waiting flags fit the kind of hardpoint and its motion state. |
| WaitOnce.InitialFlags | src/LSST/M1M3/SS/Controllers/PositionController.cpp:63-84 | After construction the waiting flags and the step limits are sound: where the claims on every reachable state start. |
| WaitOnce.ResumesExactly | src/LSST/M1M3/SS/Controllers/PositionController.cpp:262-290 | In every run a waiting hardpoint goes back to chasing at an evaluation if and only if it is looked at, is in range and this completes the configured number of in-range evaluations in a row counted from zero. |
| WaitOnce.SamplesAreStreak | src/LSST/M1M3/SS/Controllers/PositionController.cpp:262-290 | The sample counter is that streak. |
| WaitOnce.NeverResumes | src/LSST/M1M3/SS/Controllers/PositionController.cpp:262-290 | With a threshold a 16-bit counter cannot reach a waiting hardpoint never resumes. |
| WaitOnce.ToleranceMeans | src/LSST/M1M3/SS/Controllers/PositionController.cpp:166-235 | A hardpoint found in tolerance is within its force limits or in its permitted wait; the sixth is within its limits. |
| WaitOnce.FineEndsExactly | src/LSST/M1M3/SS/Controllers/PositionController.cpp:602-634 | In every run, whatever is interleaved: an update ends fine positioning if and only if its reading is on target and an earlier one was since the last near miss; otherwise it goes on. |
| WaitOnce.StableIsOnTargets | src/LSST/M1M3/SS/Controllers/PositionController.cpp:602-634 | In every run the stable count is the number of on-target readings since fine positioning was entered or the last near miss. |
| WaitOnce.FineEndsWithoutConsecutive | src/LSST/M1M3/SS/Controllers/PositionController.cpp:602-634 | So two consecutive on-target readings are not needed: on target, far off, on target ends it, whatever the switches say. |
| PositionControl.PositionController.UpdateSteps | src/LSST/M1M3/SS/Controllers/PositionController.cpp:551-672 | Each hardpoint makes its own transition: a chasing one is driven with the sign of force times coefficient, within one step of it, up to the maximum; a waiting one so in one direction only; fine positioning by one step near the target and by the distance times coefficient farther off; a queue is worked off within its limit. Only steps into an operated switch are dropped. |
| HardpointMeaning.UpdateDrives | src/LSST/M1M3/SS/Controllers/PositionController.cpp:551-684 | The same of one transition. |
| HardpointMeaning.ToleranceExactly | src/LSST/M1M3/SS/Controllers/PositionController.cpp:166-351 | When exactly a hardpoint is in tolerance, starts to wait and resumes chasing, in terms of the limits, elevations, proximities and counts set. |
| HardpointMeaning.AllFit | src/LSST/M1M3/SS/Controllers/PositionController.cpp:176-206 | With no hardpoint watched, in tolerance means exactly that all forces are within the limits for raising, or for lowering. |
| HardpointMeaning.MovesToEncoder | src/LSST/M1M3/SS/Controllers/PositionController.cpp:432-494 | After an accepted move each queue is worth the distance less four counts times the coefficient, in the direction of the target. |
| PositionControl.PositionController.FinePosition | src/LSST/M1M3/SS/Controllers/PositionController.cpp:602-634 | The fine positioning branch: steps, stable and unstable counts, end. |
| PositionControl.PositionController.CheckLimitSwitches | src/LSST/M1M3/SS/Controllers/PositionController.cpp:674-685 | A command into an operated switch is dropped. |
| PositionControl.PositionController.HpForcesInTolerance | src/LSST/M1M3/SS/Controllers/PositionController.cpp:166-235 | All six are evaluated, whatever the first ones say; true exactly if each starts to wait or is within the limits for raising or lowering, waiting ones as stated; wait indicators are the checks against those limits. |
| PositionControl.PositionController.TensionInTolerance | src/LSST/M1M3/SS/Controllers/PositionController.cpp:237-292 | The tension check of one hardpoint. |
| PositionControl.PositionController.CompressionInTolerance | src/LSST/M1M3/SS/Controllers/PositionController.cpp:294-351 | The compression check of one hardpoint. |
| PositionControl.PositionController.ScaleSteps | src/LSST/M1M3/SS/Controllers/PositionController.cpp:371-387 | Step limits in proportion to the longest queue, at least one. |
| PositionControl.PositionController.MoveHardpoint | src/LSST/M1M3/SS/Controllers/PositionController.cpp:363-389 | Accepted exactly for a non-empty move, from any state; rescales all six. |
| PositionControl.PositionController.Move | src/LSST/M1M3/SS/Controllers/PositionController.cpp:391-430 | Accepted exactly if every hardpoint asked to move is idle, and then sets all six up; otherwise nothing changes. |
| PositionControl.PositionController.MoveToEncoder | src/LSST/M1M3/SS/Controllers/PositionController.cpp:432-494 | Accepted exactly if every hardpoint off its value is idle; then each is aimed four counts short of it in its direction, otherwise nothing changes. |
| PositionControl.PositionController.EnableChaseAll | src/LSST/M1M3/SS/Controllers/PositionController.cpp:86-103 | Chasing starts only when all six are idle. |
| PositionControl.PositionController.DisableChaseAll | src/LSST/M1M3/SS/Controllers/PositionController.cpp:105-112 | All six are idle afterwards. |
| PositionControl.PositionController.StartRaise | src/LSST/M1M3/SS/Controllers/PositionController.cpp:114-118 | All six chase, with empty queues and the permission to wait of their kind. |
| PositionControl.PositionController.StartLower | src/LSST/M1M3/SS/Controllers/PositionController.cpp:120-123 | All six are idle, with empty queues and the permission to wait of their kind. |
| PositionControl.PositionController.StopMotion | src/LSST/M1M3/SS/Controllers/PositionController.cpp:534-549 | One hardpoint, or all for a negative index, with an empty queue. |
| PositionControl.PositionController.ResetWait | src/LSST/M1M3/SS/Controllers/PositionController.cpp:758-764 | Permissions to wait by kind of hardpoint, counters at zero. |
| PositionControl.PositionController.MotionComplete | src/LSST/M1M3/SS/Controllers/PositionController.cpp:353-361 | Exactly if all six are idle. |
| RaiseLower.RaiseSafety | src/LSST/M1M3/SS/Controllers/MirrorRaiseController.cpp:137-189 | In every run, with pauses and position controller calls interleaved: a loop raises the supported weight only if unpaused, every actuator follows within its limit, and every hardpoint is within the limits set for raising or, never the sixth, in its permitted wait. |
| RaiseLower.WeightIsEarned | src/LSST/M1M3/SS/Controllers/MirrorRaiseController.cpp:137-189 | The weight after any run is at most one increment per safe loop above the initial weight. |
| RaiseLower.RaisesExactly | src/LSST/M1M3/SS/Controllers/MirrorRaiseController.cpp:137-189 | A raising loop, exactly: when it adds its increment, what becomes of each hardpoint, the move to the reference position exactly if not bypassed, air pressure and static forces. |
| RaiseLower.LowerSafety | src/LSST/M1M3/SS/Controllers/MirrorLowerController.cpp:55-181 | In every run, with starts, aborted raises, pauses, position controller calls and outside changes of the weight interleaved: a loop gives up weight, at most one decrement, only if unpaused, with every hardpoint within the limits set for lowering or, never the sixth, in its permitted wait, and only if since lowering was last started an earlier loop found all six hardpoints idle or a raise was aborted. |
| RaiseLower.LowersExactly | src/LSST/M1M3/SS/Controllers/MirrorLowerController.cpp:81-106 | A lowering loop, exactly: when it gives up its decrement, and the wait for the lower position before. |
| RaiseLower.PausedLoweringMayRaise | src/LSST/M1M3/SS/States/PausedLoweringState.cpp:35-41 | A cycle of paused lowering runs the raise loop: it adds weight exactly when a raise would go on. |
| RaiseLower.FaFollowingInTolerance | src/LSST/M1M3/SS/Controllers/ForceController.cpp:172-199 | True exactly if all X, Y and Z following errors are within the limit; one wait indicator per component. |
| RaiseLower.MirrorRaiseController.Start | src/LSST/M1M3/SS/Controllers/MirrorRaiseController.cpp:102-135 | Hardpoints chase with waits rearmed, settle counters are reset, no weight is carried, a full time budget starts. |
| RaiseLower.MirrorRaiseController.RunLoop | src/LSST/M1M3/SS/Controllers/MirrorRaiseController.cpp:137-189 | The loop is the raise transition; the deadline is not touched. |
| RaiseLower.MirrorRaiseController.CheckComplete | src/LSST/M1M3/SS/Controllers/MirrorRaiseController.cpp:191-219 | Complete exactly if all weight is carried, all hardpoints idle and their forces ready; polled only while idle. |
| RaiseLower.MirrorRaiseController.Complete | src/LSST/M1M3/SS/Controllers/MirrorRaiseController.cpp:221-250 | Balance forces exactly if configured and no hardpoint timed out. |
| RaiseLower.MirrorRaiseController.PauseRaising | src/LSST/M1M3/SS/Controllers/MirrorRaiseController.cpp:264-268 | Charges the time since the start of the operation and unsets the deadline. |
| RaiseLower.MirrorRaiseController.ResumeRaising | src/LSST/M1M3/SS/Controllers/MirrorRaiseController.cpp:270-274 | The deadline is the remaining budget from now on. |
| RaiseLower.MirrorLowerController.Start | src/LSST/M1M3/SS/Controllers/MirrorLowerController.cpp:55-79 | Never refused: hardpoints go to the lower position, all weight is carried, a full budget starts. |
| RaiseLower.MirrorLowerController.RunLoop | src/LSST/M1M3/SS/Controllers/MirrorLowerController.cpp:81-106 | The loop is the lower transition. |
| RaiseLower.MirrorLowerController.AbortRaise | src/LSST/M1M3/SS/Controllers/MirrorLowerController.cpp:145-163 | Every hardpoint chases, whatever it was doing; the weight and the pause flag stay; a full budget is granted. |
| Deadlines.TimesOutExactly | src/LSST/M1M3/SS/Controllers/MirrorRaiseController.cpp:252-274 | After any breaks: timed out if and only if running time plus what was overcharged reaches the timeout. |
| Deadlines.PausingNeverExtends | src/LSST/M1M3/SS/Controllers/MirrorRaiseController.cpp:252-274 | Once unpaused time since the start reaches the timeout the operation has timed out, however often it was paused. |
| Deadlines.PausedTimeNotCounted | src/LSST/M1M3/SS/Controllers/MirrorLowerController.cpp:165-175 | Paused time is left out of the budget to the instant if and only if there was at most one break, or all before the last ended at the very start. |
| Deadlines.SecondPauseOvercharges | src/LSST/M1M3/SS/Controllers/MirrorRaiseController.cpp:264-274 | Two short breaks make a 15 second budget run out after ten seconds of running. |
| Settling.SettlingEnds | src/LSST/M1M3/SS/Controllers/MirrorRaiseController.cpp:47-71 | After 6(T+2) calls since a reset every further call says ready, whatever forces are measured and though later hardpoints are polled only while earlier ones pass. |
| Settling.SettlingBoundSharp | src/LSST/M1M3/SS/Controllers/MirrorRaiseController.cpp:47-71 | There are forces that keep the hardpoints unready for all 6(T+2) calls. |
| Settling.SettledWindow | src/LSST/M1M3/SS/Controllers/MirrorRaiseController.cpp:47-75 | A counter that says ready without having timed out has seen its last L+2 forces within the tolerance of one unchanged midpoint. |
| Settling.ReadyExactly | src/LSST/M1M3/SS/Controllers/MirrorRaiseController.cpp:47-71 | A counter not timed out says ready if and only if this and at least L+1 forces right before it, after the first, were within the tolerance of one midpoint held all the while. |
| Settling.SteadyReady | src/LSST/M1M3/SS/Controllers/MirrorRaiseController.cpp:47-71 | A steady force is ready at poll L+3 and every later one, and on none before unless timed out, from poll T+3 on. |
| Settling.MidpointMoves | src/LSST/M1M3/SS/Controllers/MirrorRaiseController.cpp:47-67 | The first force is the midpoint; one out of tolerance moves it half way. |
| Settling.ReadyMeansSettled | src/LSST/M1M3/SS/Controllers/MirrorRaiseController.cpp:276-284 | The same for all six hardpoints through the short-circuit polling, for the forces that reached each counter. |
| Settling.TimedOutExactly | src/LSST/M1M3/SS/Controllers/MirrorRaiseController.cpp:47-75 | A counter has timed out if and only if it was polled T+2 times, settled or not. |
| Settling.TimedOutAfterSettling | src/LSST/M1M3/SS/Controllers/MirrorRaiseController.cpp:59-75 | So a settled counter times out when polled on. |
| Settling.HpInRangeCounter.CheckForce | src/LSST/M1M3/SS/Controllers/MirrorRaiseController.cpp:47-71 | One poll of a counter. |
| Settling.CheckHpReady | src/LSST/M1M3/SS/Controllers/MirrorRaiseController.cpp:276-284 | Polls the six counters in order until one is not ready; the others are left alone. |
| RaisingInfo.RaisingLoweringInfo.IncSupportPercentage | src/LSST/M1M3/SS/Publisher/RaisingLoweringInfo.cpp:46-53 | Weight goes up by the step, to at most 100. |
| RaisingInfo.RaisingLoweringInfo.DecSupportPercentage | src/LSST/M1M3/SS/Publisher/RaisingLoweringInfo.cpp:55-62 | Weight goes down by the step, to at least 0. |
| BumpTests.BumpTestOffsets | src/LSST/M1M3/SS/Controllers/BumpTestController.cpp:377-513 | From any trigger on, through any run that does not stop or retrigger the actuator, offsets asked for plus offsets to come are the script of the test: +F, 0, -F, 0, 0 on the primary axis, then on the secondary one, or what an axis already under test had left; and the test is over exactly when all of it was asked for. |
| BumpTests.AxisStepExactly | src/LSST/M1M3/SS/Controllers/BumpTestController.cpp:377-513 | Exactly when an axis leaves its stage, what it then asks for, and that it is judged by its own reading, once for a timeout with statistics and once more when fine. |
| BumpTests.OthersIgnored | src/LSST/M1M3/SS/Controllers/BumpTestController.cpp:110-156 | The readings of other axes in the report do not matter. |
| BumpTests.ProblemsExactly | src/LSST/M1M3/SS/Controllers/BumpTestController.cpp:279-358 | Which errors on which actuators count as problems seen, by kind of test. |
| BumpTests.NeverBothForces | src/LSST/M1M3/SS/Controllers/BumpTestController.cpp:106-160 | In every run without disturbing triggers, retriggers included, the vertical and the horizontal offset of an actuator are never both applied, an actuator not under test has none, nor has one in a cylinder test. |
| BumpTests.FaultlessExactly | src/LSST/M1M3/SS/Controllers/BumpTestController.cpp:54-160 | The exact condition: at every point of a run, and whatever cycles follow, never both offsets and none after the test, if and only if no trigger of the run is a cylinder test while some offset stands or a primary test while the horizontal one does. |
| BumpTests.FaultsAhead | src/LSST/M1M3/SS/Controllers/BumpTestController.cpp:106-160 | Whether some cycles make an actuator push both ways or leave it with an offset, exactly, from its present stages and offsets. |
| BumpTests.TriggerDisturbs | src/LSST/M1M3/SS/Controllers/BumpTestController.cpp:54-83 | A trigger brings such a fault about exactly if it disturbs in that sense. |
| BumpTests.AppliedForces | src/LSST/M1M3/SS/Controllers/BumpTestController.cpp:458-513 | Through a test by axes that found the actuator idle and safe, the applied offsets are what the stages say: +F, -F or nothing. |
| BumpTests.CylinderTestsOffsetNothing | src/LSST/M1M3/SS/ForceComponents/OffsetForceComponent.cpp:108-121 | Through any run a cylinder test leaves the offsets as they stood when it was triggered. |
| BumpTests.RetriggerOverlaps | src/LSST/M1M3/SS/Commands/ForceActuatorBumpTestCommand.cpp:56-68 | A concrete disturbing trigger: a primary test triggered while the secondary one pushes applies both. |
| BumpTests.TestingEnds | src/LSST/M1M3/SS/Controllers/BumpTestController.cpp:377-513 | With loops at most a period apart, an axis under test is through within five times settling time plus period, two axes within ten, whatever statuses arrive. |
| BumpTests.TriggerLeaves | src/LSST/M1M3/SS/Controllers/BumpTestController.cpp:54-83 | Five stages for each axis triggered. |
| BumpTests.PassedExactly | src/LSST/M1M3/SS/Controllers/BumpTestController.cpp:246-375 | In every run, retriggers included, a finished test has passed if and only if everything judged since the last warning was clean; no test is ever reported as timed out. |
| BumpTests.OutcomeNames | src/LSST/M1M3/SS/Controllers/BumpTestController.cpp:196-244 | A failed test is named, by side and direction, after its last judgement that was not fine. |
| BumpTests.NoDataPasses | src/LSST/M1M3/SS/Controllers/BumpTestController.cpp:377-423 | While the statistics of a test on the primary axis never become available nothing is judged, and once it is over it has passed. |
| BumpTests.RunSound | src/LSST/M1M3/SS/Controllers/BumpTestController.cpp:85-181 | In every reachable state the recorded outcome of every axis is the verdict on what was judged, and single axis actuators have no secondary test. |
| BumpTests.Projection | src/LSST/M1M3/SS/Controllers/BumpTestController.cpp:106-160 | A run of the controller does to one actuator what its visits do, others mattering only through the problems they show. |
| BumpTests.BumpTestController.SetBumpTestActuator | src/LSST/M1M3/SS/Controllers/BumpTestController.cpp:54-83 | Triggers, or is refused for a second axis that does not exist, having changed the timeout. |
| BumpTests.BumpTestController.FinalizeTest | src/LSST/M1M3/SS/Controllers/BumpTestController.cpp:246-375 | The recorded outcome of one axis, and of nothing else, is settled by its status and by problems on actuators out of test. |
| BumpTests.BumpTestController.RunAxis | src/LSST/M1M3/SS/Controllers/BumpTestController.cpp:377-513 | An axis stays as it is, or its own status is fine or its timeout has come, and it leaves its stage for the next one with the force of that on its own axis, X or Y as the actuator is built, or cylinder. |
| BumpTests.BumpTestController.RunLoop | src/LSST/M1M3/SS/Controllers/BumpTestController.cpp:85-181 | One cycle over all actuators; bump testing is exited exactly when nothing was left to run and every timeout has passed. |
| BumpTests.BumpTestController.StopEverything | src/LSST/M1M3/SS/Controllers/BumpTestController.cpp:183-194 | No test is left and every offset is zero. |
| HardpointTests.TestSoundness | src/LSST/M1M3/SS/Controllers/HardpointTestController.cpp:111-173 | In every run, passed means: since the test was last started switch 2, switch 1 and switch 2 were seen operated in ever later loops, each sending the hardpoint the other way, and a still later loop found it idle. |
| HardpointTests.Milestones | src/LSST/M1M3/SS/Controllers/HardpointTestController.cpp:111-173 | The same for every state on the way, from the start that was last accepted. |
| HardpointTests.FailsOnlyOnEmptyMove | src/LSST/M1M3/SS/Controllers/HardpointTestController.cpp:114-150 | In every run a test fails only if the reference move is empty, and gets past its second negative run only if it is not. |
| HardpointTests.LoopedMeans | src/LSST/M1M3/SS/Controllers/HardpointTestController.cpp:69-78 | What one loop does to one hardpoint does not depend on the tests of the others. |
| HardpointTests.LoopedExactly | src/LSST/M1M3/SS/Controllers/HardpointTestController.cpp:111-173 | One loop and one hardpoint, exactly: down, up and down by the full travel as the switches operate, then 10001 encoder counts in steps, where it passes once idle. |
| HardpointTests.HardpointTestController.StartHardpointTest | src/LSST/M1M3/SS/Controllers/HardpointTestController.cpp:56-67 | Refused exactly while a test is under way. |
| HardpointTests.HardpointTestController.KillHardpointTest | src/LSST/M1M3/SS/Controllers/HardpointTestController.cpp:80-98 | Only a test under way is ended, its hardpoint stopped. |
| HardpointTests.HardpointTestController.RunHardpointLoop | src/LSST/M1M3/SS/Controllers/HardpointTestController.cpp:111-173 | One step of one test, and whether it changed. |
| HardpointTests.HardpointTestController.RunLoop | src/LSST/M1M3/SS/Controllers/HardpointTestController.cpp:69-78 | The steps of the six tests in order. |
| FixedPoint.FxpRoundTrip | src/NiFpga/NiFpga.h:654-786 | For word lengths 1 to 63, signed or not, and any 64-bit word: encoding the decoded number gives back the bits that were read. |
| FixedPoint.FromFxpMeans | src/NiFpga/NiFpga.h:654-665 | Decoding is the increment times the two's complement value of the low bits. |
| FixedPoint.DeltaExactly | src/NiFpga/NiFpga.h:696-730 | The increment is two to the integer word length less the word length. |
| FixedPoint.ToFxpMeans | src/NiFpga/NiFpga.h:760-786 | Encoding in closed form. |
| FixedPoint.SaturatesExactly | src/NiFpga/NiFpga.h:760-786 | Encoding is truncation clamped to the type if and only if the type is unsigned or the number neither is a negative one that truncates to zero nor exceeds the type by less than a factor of two. |
| FixedPoint.Misencodings | src/NiFpga/NiFpga.h:762-786 | Numbers just below zero and just above the greatest become the most negative one. |
| FixedPoint.HalfBelowZero | src/NiFpga/NiFpga.h:762-775 | A concrete case. |
| RawDump.RawDumpRoundTrip | src/LSST/M1M3/SS/Commands/RawDCAccelerometersCommands.cpp:77-85 | For any stream of words, packing to three bytes and decoding gives the numbers decoded from the words, in order, whatever the five unread bytes hold. |
| RawDump.SampleValue | utils/dcrawdump.cpp:119-124 | What is printed is the low 24 bits of the recorded word as a signed number, divided by 2 to the 19th. |
| RawDump.DumpBlock | src/LSST/M1M3/SS/Commands/RawDCAccelerometersCommands.cpp:77-85 | The swap in place and the copy of three bytes a word, for a whole block. |
| RawDump.PackedConcat | src/LSST/M1M3/SS/Commands/RawDCAccelerometersCommands.cpp:74-86 | Blocks written one after another are one recording. |
| RawDump.DecodeFile | utils/dcrawdump.cpp:115-131 | The decoding loop prints the numbers of all whole samples in rows. |
| RawDump.RowsOfEight | utils/dcrawdump.cpp:124-130 | Number k is followed by a new line exactly if it is the eighth of its row. |
| Setpoints.SetpointsRecoverable | src/LSST/M1M3/SS/Controllers/ForceController.cpp:545-597 | For every orientation the X or Y force, with its sign, is recovered from the unclamped setpoints within 1 mN / sqrt 2, the Z force within 1 mN more. |
| Setpoints.SetpointsDistinguish | src/LSST/M1M3/SS/Controllers/ForceController.cpp:545-597 | Forces sharing their setpoints differ by less than twice that. |
| Setpoints.SetpointConverter.Convert | src/LSST/M1M3/SS/Controllers/ForceController.cpp:528-614 | All actuators are converted: by orientation, Z less or plus the X or Y force on the vertical cylinder and plus or minus that force times the square root of two on the other, in millinewtons without fraction; the applied values are those or the limits they are beyond, each warning says whether a value was altered, and the safety controller is notified exactly if one was. |
| Setpoints.SetpointsCarry | src/LSST/M1M3/SS/Controllers/ForceController.cpp:545-597 | The same of one actuator, orientation by orientation. |
| Setpoints.SetpointConverter.ConvertOne | src/LSST/M1M3/SS/Controllers/ForceController.cpp:537-607 | One actuator is converted; without an orientation the second cylinder keeps its setpoint; the others are left alone. |
| Setpoints.InRangeAndCoerce | src/LSST/M1M3/SS/Utility/Range.h:61-70 | In range if and only if the output is the value; otherwise it is the nearer limit. |
| Setpoints.ClampedReachesIlc | src/LSST/M1M3/SS/Controllers/ForceController.h:319-319 | The conversion does not keep to 24 bits; every clamped value is what the actuator controller reads if and only if both limits fit. |

## Left out

- Input and output: FPGA wrappers, FIFOs, publishing, logging, settings files, start-up, threads and locks.
- Commands and the state machine, but for the raw accelerometer recording and what a cycle of paused lowering calls.
- Bus lists made of single messages (mode changes, reports, resets): the same loop without an update.
- Changing the set of disabled actuators between building and updating, and subnets whose actuators are all disabled: the skip loop of the program does not end there.
- Boosters, accelerometers, moment, weight and neighbour checks, force components: straight arithmetic or shallow hysteresis.
- Hardpoint following errors, safety notifications of the position controller, and the matrix that turns a pose into steps: they do not affect the states modelled.
- The limit triggers of following errors: they only log.
- Rounding of floating point, and fixed-point types whose increment underflows or overflows a float.
- Casts that are undefined in the original: setpoints beyond 32 bits, quotients beyond 64 bits.
- Negative hardpoint index when a hardpoint test is killed: the original reads outside its array.
- Stopping bump tests before any measurement was taken: the original then works on unallocated data.
- How bump test statistics are computed, and their publication: statuses are inputs.
- Minimal distance between actuators under test, checked by the command.
- Second and further files given to the accelerometer decoder, and overflow of the FIFO it records from.
- RaiseLower.MirrorRaiseController.Complete: states the balance and static forces only; the other force components switched on and off are not modelled.
