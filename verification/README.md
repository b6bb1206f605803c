# Smart stroller: verified model of the control core

The stroller is driven over TCP. A comm thread turns text frames into commands
in a one-slot register, a follow thread executes the register on the chassis,
a sensor thread shares a one-slot outbox with the comm thread, and two kernel
drivers turn motor speeds and servo pulses into soft-PWM waveforms on GPIO pins.
This project models those parts in Dafny and proves what they do over whole
runs, from the bytes of a frame to the time a motor pin is high.

| file | models |
|---|---|
| `CTypes.dfy` | 32-bit and 64-bit C integer conversions |
| `Frames.dfy` | command frames: printing, `strtol`, checksum |
| `CommandCore.dfy` | the step machine of comm thread and follow thread around the command register |
| `Outbox.dfy` | NUL-terminated buffers; the step machine of the outbox and its senders |
| `Stroller.dfy` | the stroller object and the code of the comm and follow threads |
| `LockOrder.dfy` | deadlock freedom and mutual exclusion of rank-ordered locking, and the lock programs of the four threads |
| `SoftPwm.dfy` | the PWM channel object, its timer automaton and its timed runs |
| `Waveform.dfy` | the pin waveform against an ideal PWM, high time, cycle lengths |
| `Actuators.dfy` | chassis, motors and servo |
| `Machine.dfy` | the whole machine in time: both threads, device calls and timers, from boot on |
| `EndToEnd.dfy` | from the bytes of a frame to the pins, over timed runs of the machine |
| `Vl6180.dfy` | I2C address assignment of the range sensors |
| `Hlk2411s.dfy` | the presence-sensor frame decoder |
| `Sw18015.dfy` | the shake counter, its reader, and the debounced wake-up |

State that the program updates in place is a class whose methods are proved
equal to functions on its value (`View`). Concurrency is a step machine on
values: one step per critical section, wake-up, timer expiry or ioctl, in any
interleaving; the comm loop and the pass of the follow thread, as methods, are
tied to those steps by lemmas. Times in the PWM model are nanoseconds.

## What the code does not guarantee

The proofs keep the code as it is. These are the places where it does less than
one may expect, each with the exact condition.

- A command is executed if and only if it is stored in remote mode and the follow
  thread makes a pass before the next one is stored
  (`CommandCore.ExecutedIffPassInTime`, `CommandCore.SpeedCanBeLost`).
- Of two frames delivered by one read only the first counts, even when the
  second is a STOP; a read that ends inside the second frame loses both
  (`Frames.FirstFrameOfRead`).
- Outside remote mode nothing is executed, so neither a STOP nor the switch to
  auto mode stops the wheels (`CommandCore.OnlyRemoteExecutes`,
  `CommandCore.ModeSwitchStops`).
- A rejected speed of the opposite sign reverses a moving vehicle
  (`Actuators.VelocityFollowsMirror`, `Actuators.RejectedRequestReverses`; over
  runs of the whole machine `Machine.WheelsFollowIff`).
- START or STOP calls at most 1000 us apart hold a pin as it is
  (`SoftPwm.StormHoldsPin`); a STOP lowers the pin in 1000 us if and only if no
  other follows before then (`SoftPwm.StopInTimeUnlessRearmed`). Each accepted
  turn stretches the pulse in progress by at least 1000 us
  (`Waveform.RestartStretchesPulse`).
- The reply to a mode switch is dropped when a sensor message is waiting
  (`Stroller.WhatIsSent`).
- With no client connected a message can still be accepted, if and only if the
  sensor thread is past its connection test (`Outbox.AcceptedWithoutClient`).
- The outbox can hand a message accepted for one client to the next one; it
  does not if and only if no client is accepted over a message flushed later
  (`Outbox.MessagesReachTheirClients`, `Outbox.NextClientGetsOldMessage`). Its
  length test lets a 100-byte message in, which loses its terminator
  (`Outbox.OnlyGoodMessagesSurvive`).
- A range sensor that is disabled and enabled again stays at the default address
  while the driver reports success (`Vl6180.EnableAfterDisable`); without any
  answer the address check passes on a stale byte (`Vl6180.AbsentSensorReported`).
- Shakes between the two ioctls of a read are lost
  (`Sw18015.ReadsNeverOverCount`), and a motion/distance pair read in two calls
  can be torn (`Hlk2411s.ClientPair`, `Hlk2411s.ClientPairCanTear`).
- The comment at `app/src/stroller.c:179` calls the checksum a todo; the code
  below it checks one, and the model follows the code.

## Model

| member | source | states |
|---|---|---|
| CTypes.ConversionsAreModular | app/src/stroller.c:194-198 | conversions to int and uint32_t are congruent modulo 2^32 and in range |
| CTypes.ClampIsNearest | app/src/stroller.c:194-197 | a number outside long is read as the nearest long |
| Frames.StrtolReadsNumber | app/src/stroller.c:193-197 | white space, an optional sign and any digits, leading zeros included, are read as the number they denote, saturated to long, up to the first other character |
| Frames.StrtolReadsNothing | app/src/stroller.c:193-197 | text without a number converts to 0 and leaves the end pointer at the start |
| Frames.VerdictOfBytes | app/src/stroller.c:188-201 | on the bytes: a read is malformed iff it is empty, does not begin with 'y' or does not end with 'c'; any other is accepted iff its fourth number is the sum of the first three modulo 2^32 |
| Frames.TypedFrame | app/src/stroller.c:188-201 | the grammar in full: 'y', four numbers with any white space, signs and leading zeros, and any text that ends in 'c' are judged by those four numbers |
| Frames.ParsePrintedPrefix | app/src/stroller.c:186-201 | a printed frame of any four integers followed by any text: if the read ends in 'c' exactly the four leading numbers are used, as int variables hold them, otherwise the read is rejected whole |
| Frames.FrameRoundTrip | app/src/stroller.c:178-201 | a frame printed from int fields parses to exactly those fields, and passes if and only if its checksum is their (wrapping) sum |
| Frames.FirstFrameOfRead | app/src/stroller.c:186-201 | a read that begins with a whole valid frame is accepted as that frame, whatever follows, if and only if nothing follows or what follows ends in 'c'; otherwise it is malformed and the frame is lost |
| Frames.FrameFits | app/include/stroller.h:57 | every frame of int fields is NUL-free and under 50 bytes, so it fits the 100-byte buffer |
| CommandCore.StepKeepsInv | app/src/stroller.c:128-226 | every receive, follow pass and (spurious) wake-up keeps: the register is the newest store, executed commands come in order from stores made in remote mode, and a follow thread waiting unsignalled in remote mode has caught up |
| CommandCore.NoLostCommand | app/src/stroller.c:156-163 | in every reachable state, a follow thread blocked in remote mode with no wake pending has last executed exactly the stored command, from the newest store |
| CommandCore.WhenFollowWaits | app/src/stroller.c:128-167 | in every reachable state two passes can follow each other at once iff the thread is running and the mode is auto; in the other modes a pass ends in the wait, and any wake-up leads to the next pass |
| CommandCore.AutoNeverWaits | app/src/stroller.c:131-155 | in auto mode any number of passes follow each other without a wait or a change |
| CommandCore.OnlyStoresSignal | app/src/stroller.c:203-219 | a stored frame signals a waiting thread; no other frame, and none while it runs, changes where the thread is or the register |
| CommandCore.ExecutedFromRemoteStores | app/src/stroller.c:203-219 | in every run each executed command is, in store order, a register content stored by a motion command that arrived in remote mode or by the STOP of a switch to it |
| CommandCore.NoStaleCommand | app/src/stroller.c:213-219 | no stale command across a mode switch: for all runs before and after it, the executed history only grows, and every later execution is of the switch's own STOP or of a command stored after it in remote mode |
| CommandCore.OnlyMotionCommands | app/src/stroller.c:95-122 | only STOP, SPEED and DIRECTION are ever executed, so the default branch is unreachable from the network; the mode never returns to NONE |
| CommandCore.Settles | app/src/stroller.c:156-167 | from every reachable remote-mode state the follow thread alone reaches the wait with the newest store executed |
| CommandCore.OverwrittenCommandsAreLost | app/src/stroller.c:206-211 | nothing that happens after a stored command is overwritten changes whether it has been executed |
| CommandCore.ExecutedIffPassInTime | app/src/stroller.c:128-226 | exactly when a stored command is executed: with any run before, between and after, the first of two stored frames has been executed in the end iff it was stored in remote mode and the follow thread made a pass before the second was stored |
| CommandCore.SpeedCanBeLost | app/src/stroller.c:206-211 | a SPEED followed at once by a DIRECTION is not executed, for all values |
| CommandCore.WireFormat | app/include/stroller.h:45-52 | the frames of the five commands, byte by byte |
| CommandCore.OnlyRemoteExecutes | app/src/stroller.c:131-155 | outside remote mode no run without a switch to it executes anything, STOP in auto mode and commands before the first switch included |
| CommandCore.ModeSwitchStops | app/src/stroller.c:214-219 | after a mode switch the follow thread stops the vehicle if and only if data1 is not 0 |
| Outbox.OnlyGoodMessagesSurvive | app/src/stroller.c:28-46 | a message deposited in the empty outbox is a terminated, non-empty, unchanged text there if and only if it has 1 to 99 bytes without NUL |
| Outbox.StepKeepsInv | app/src/stroller.c:37-46 | each send, flush and client change keeps: buffer is a NUL-free text padded with zeros, accepted messages are the written ones plus the pending one |
| Outbox.OutboxIsFifo | app/src/stroller.c:260-266 | in every interleaving of two senders, flushes and reconnects the outbox is a one-place FIFO: nothing mixed, truncated or repeated |
| Outbox.NothingAcceptedWithoutClient | app/src/stroller.c:33-35 | with no client and no sender past its connection test, no run without a new client accepts anything |
| Outbox.LateSenderDeposits | app/src/stroller.c:33-46 | in every reachable state without a client, a sensor thread past its connection test can flush and deposit its message |
| Outbox.AcceptedWithoutClient | app/src/stroller.c:23-48 | exactly when a message can be accepted with no client connected, in every reachable state: some run without a new client accepts one iff the sensor thread is past its connection test |
| Outbox.SenderOutlivesClient | app/src/stroller.c:33-37 | that state arises when the client leaves between the test and the lock |
| Outbox.MessagesReachTheirClients | app/src/stroller.c:246-266 | over all runs, every message was written to the connection it was accepted for if and only if no client is accepted while a message waits that is flushed later |
| Outbox.NextClientGetsOldMessage | app/src/stroller.c:249-252 | the condition can fail: a message accepted for one client is written to the next after a reconnect |
| Stroller.Stroller.CommSend | app/src/stroller.c:23-48 | the message replaces the start of an empty, connected outbox and the rest stays; otherwise -1 and no change |
| Stroller.Stroller.LockedDeposit | app/src/stroller.c:37-46 | the locked part alone, as run by a sender already past its tests: the message goes into an empty outbox, whatever the connection is by then |
| Stroller.Stroller.MoveOfRemote | app/src/stroller.c:95-122 | STOP and SPEED set the chassis speed, DIRECTION its turn, NONE nothing; anything else is -1 |
| Stroller.Stroller.FollowPass | app/src/stroller.c:128-167 | one locked pass executes the register exactly in remote mode and waits except in auto mode |
| Stroller.Stroller.ReceiveCallback | app/src/stroller.c:180-230 | register, reply and signal are determined by the parsed text; a rejected frame changes none; the receive buffer is zeroed on every path |
| Stroller.Stroller.CommPass | app/src/stroller.c:246-268 | one pass of the loop, for a timeout, a read or a closed connection, or a step of the sensor thread: its tests, or its deposit, which may also fall between callback and flush; the receive buffer is empty before and after |
| Stroller.Stroller.CommLoop | app/src/stroller.c:232-271 | over any inputs, the sensor thread's steps among them, the loop's effect is the fold of single passes, so frames never mix |
| Stroller.RejectedFramesInvisible | app/src/stroller.c:188-201 | over any inputs, register, outbox and everything sent are what they would be had each frame been a timeout that, on its bytes, fails the y/c test, the checksum or the command switch |
| Stroller.NotAFrameIsTimeout | app/src/stroller.c:188-191 | a read whose text is empty, does not begin with 'y' or does not end with 'c' leaves register, outbox and wire as a timeout does |
| Stroller.WhatIsSent | app/src/stroller.c:221-266 | one read puts on the wire the waiting message, or else the bytes "ok\n" in reply to a mode switch of a connected client, or else the message of a sensor thread past its tests that comes before the flush, or nothing; the outbox is empty afterwards |
| Stroller.CommLoopFeedsCore | app/src/stroller.c:246-268 | the register the loop leaves is the one the step machine reaches on the same frames |
| Stroller.FollowLoopFeedsCore | app/src/stroller.c:124-171 | whatever frames come before each pass, the follow loop is a run of the step machine: same commands in the same order, and a wait after each pass unless the mode is auto |
| Stroller.CommLoopFeedsOutbox | app/src/stroller.c:23-48 | whatever comes to the loop and whenever the sensor thread tests and deposits, buffer, connection and everything written are those of a run of the outbox machine |
| Stroller.CommLoopIsFifo | app/src/stroller.c:246-266 | so over any inputs everything on the wire followed by the waiting message is what was accepted, whole and in order |
| LockOrder.StrollerIsOrdered | app/src/stroller.c:37-171 | the locked sections of the sensor, comm, follow and decoder threads take their locks in rank order and access shared data only under its lock |
| LockOrder.MutualExclusion | app/src/stroller.c:37-46 | for any threads so disciplined, in no reachable state two of them are at an access to the same datum |
| LockOrder.WaitGivesUp | app/src/stroller.c:161-162 | a wait frees its mutex and sleeps until a wake-up, and then needs the mutex again |
| LockOrder.StrollerShares | app/src/stroller.c:37-226 | the outbox, the register, the presence pair and the log are each accessed by the threads that share them |
| LockOrder.EverySectionRuns | app/src/stroller.c:124-171 | every section of every thread can be begun and, left alone, run to its end, waits included |
| LockOrder.OrderedIsDisciplined | app/src/stroller.c:129-162 | rank-ordered nested sections, waits on a condition included, give operation sequences that acquire above all held locks and end with none |
| LockOrder.NoDeadlock | app/src/stroller.c:129-171 | for any number of rank-ordered threads, in every reachable state whoever waits for a lock waits through a chain of holders for a thread that can step |
| LockOrder.NoWaitCycle | app/src/stroller.c:80-88 | the wait-for relation is acyclic in every reachable state |
| LockOrder.LocksCanAlwaysBeReleased | app/src/stroller.c:206-222 | from every reachable state the lock holders can run on to a state with all locks free |
| SoftPwm.Channel.Motor | drivers/src/motor-spwm.c:226-232 | a probed motor channel is disabled and low, with one expiry pending after 1000 ns |
| SoftPwm.Channel.Servo | drivers/src/servo.c:139-147 | a probed servo channel is disabled and low, period 20 ms, timer idle |
| SoftPwm.Channel.StartTimer | drivers/src/motor-spwm.c:56-63 | arming replaces state and expiry; the nanosecond delay is computed in 32 bits |
| SoftPwm.Channel.Handler | drivers/src/motor-spwm.c:65-85 | the handler's effect on pin, state and timer |
| SoftPwm.Channel.HandleIoctl | drivers/src/motor-spwm.c:101-127 | the effect and the result of set, get, start, stop and unknown requests of both drivers; a failing copy leaves what it copied in the duty register and is the residue or -EFAULT |
| SoftPwm.RunKeepsInv | drivers/src/servo.c:43-72 | over every run of expiries and ioctls: FALLING means high, RISING means low, no pending timer means disabled and low |
| SoftPwm.StopsWithinOneMillisecond | drivers/src/motor-spwm.c:118-120 | after STOP with no later START or STOP the pin is low and the timer idle from 1000 us on |
| SoftPwm.StormHoldsPin | drivers/src/motor-spwm.c:114-120 | any mix of START and STOP calls, each at most 1000 us after the one before, is possible for any length, and keeps the pin unchanged and the timer armed |
| SoftPwm.StopInTimeUnlessRearmed | drivers/src/motor-spwm.c:114-120 | with the pin high at STOP, 1000 us later the pin is low if and only if no later START or STOP came before the expiry |
| Waveform.HighDelayExact | drivers/src/motor-spwm.c:56-77 | the high phase lasts the duty iff that many nanoseconds fit 32 bits |
| Waveform.LowDelayExact | drivers/src/motor-spwm.c:73-77 | the low phase lasts the rest of the period iff the duty is within the period; otherwise the unsigned subtraction wraps |
| Waveform.Phases | drivers/src/motor-spwm.c:65-77 | the state and expiry after any number of firings since a rising edge |
| Waveform.FiresAreRun | drivers/src/motor-spwm.c:65-85 | repeated firings are a valid timed run of the automaton with that result |
| Waveform.RefinesIdeal | drivers/src/motor-spwm.c:56-85 | from any started state, at every instant from the next rising edge on, the pin is high iff (t mod period) < duty |
| Waveform.RefinesIdealAfterStart | drivers/src/motor-spwm.c:106-117 | the same after START in any state and any duty changes at any instants, at the duty last set |
| Waveform.EveryInstantSeen | drivers/src/motor-spwm.c:65-77 | the automaton gets past every instant, so the refinement covers all time |
| Waveform.HighTime | drivers/src/motor-spwm.c:69-77 | high time of any prefix T, added up from the firings, is that of an ideal PWM, (T div P)*d + min(T mod P, d) |
| Waveform.HighOfIdealCounts | drivers/src/motor-spwm.c:69-77 | that closed form grows from 0 by exactly the nanoseconds in which the ideal PWM is high |
| Waveform.HighTimeOfWholePeriods | drivers/src/motor-spwm.c:69-77 | n whole periods hold exactly n duties of high time |
| Waveform.RestartStretchesPulse | app/src/actuator/chassis.c:48-50 | a START during a pulse keeps the pin high for 1000 us and one more duty from then |
| Waveform.ExpiryLedger | drivers/src/motor-spwm.c:106-108 | with duties within the period no delay wraps: the pending expiry is the exact sum of duties at rises and complements at falls, over every run of duty changes |
| Waveform.CyclesLength | drivers/src/motor-spwm.c:69-77 | n cycles last n*P plus the duties at the rises minus the duties at the falls |
| Waveform.OneCycleLength | drivers/src/motor-spwm.c:69-77 | every cycle lasts P plus duty at rise minus duty at fall, between 0 and 2P |
| Actuators.Motor.SetSpeed | app/src/actuator/motor.c:32-44 | a magnitude above 2000 or a failed call changes nothing and is -1; otherwise speed and duty register are the request |
| Actuators.Motor.constructor | app/src/actuator/motor.c:87-92 | a created motor has speed 0; each of duty 0 and the started channel holds if its ioctl worked, both results being ignored |
| Actuators.Servo.SetAngle | app/src/actuator/servo.c:46-56 | an angle in [45, 135] sets the pulse, any other is -1 and changes nothing |
| Actuators.Servo.GetAngle | app/src/actuator/servo.c:58-68 | the angle of the duty register, with the unsigned subtraction of the code; a failed ioctl is -1 and leaves the caller's variable |
| Actuators.Chassis.SetChassisSpeed | app/src/actuator/chassis.c:14-38 | pins follow every request, one high and one low on both bridges, each motor its own ioctl, the mirror only a call both motors took; 0 iff the speed is within (-2001, 2001) and both ioctls work |
| Actuators.Chassis.SetChassisTurn | app/src/actuator/chassis.c:40-54 | a turn in (-40, 40) sets pulse and mirror and restarts the servo; any other is -1 and changes nothing |
| Actuators.RangeOfSpeeds | app/src/actuator/motor.c:34 | the speeds taken are those between -2001 and 2001 exclusive; the magnitude is the whole part |
| Actuators.SpeedCallKeepsStep | app/src/actuator/chassis.c:32-36 | one call keeps the motors in step iff it is out of range, both ioctls agree, or the magnitude is unchanged |
| Actuators.CallsKeepStep | app/src/actuator/chassis.c:14-38 | with working ioctls, over any sequence of calls, both motors and duty registers agree with the mirror's whole part and stay at most 2000 |
| Actuators.CallsHistory | app/src/actuator/chassis.c:18-31 | over any sequence of calls, whichever ioctls fail, each motor holds the magnitude of the last call it took, the mirror the last call both took, and the pins the sign of the last request |
| Actuators.BridgesDrive | app/src/actuator/chassis.c:18-31 | after any speed calls the two pins of each bridge differ, and both wheels turn forward iff the last request is above 0 |
| Actuators.VelocityFollowsMirror | app/src/actuator/chassis.c:18-36 | both wheels do the same, and what the mirror says iff the last request had its sign or the magnitude is 0 |
| Actuators.RejectedRequestReverses | app/src/actuator/chassis.c:18-36 | at 1000, a rejected -3000 makes it -1000 while the mirror stays 1000 |
| Actuators.AngleReadBack | app/src/actuator/servo.c:53-66 | get after set returns an angle at most 0.09 degrees below |
| Actuators.PulseMonotone | app/src/actuator/servo.c:53 | pulses are monotone in the angle, strictly for steps of 0.09 degrees |
| Actuators.AngleReadBackWraps | app/src/actuator/servo.c:66 | the read-back formula is right iff the pulse is at least 1000 us |
| Actuators.TurnPulse | app/src/actuator/chassis.c:40-53 | an accepted turn gives a pulse in [1055, 1944] us, reads back within 0.09 degrees and restarts the PWM; a rejected or failed one changes nothing |
| Machine.BootStroller | app/src/stroller.c:389-399 | registering the chassis, stopping and straightening, with motors started one after the other and their timers going on, gives the machine's initial state: a zero register, empty buffers, no client, and the booted vehicle |
| Machine.BootCanHappen | app/src/actuator/chassis.c:85-99 | such an initial state exists for any order of start instants the code can have |
| Machine.FinishIsExecute | app/src/actuator/chassis.c:14-54 | the device calls of a command, one after the other and with any of them failing, add up to the command as executed in one pass |
| Machine.LeftMotorFirst | app/src/actuator/chassis.c:16-33 | the direction is shown before the first motor call, and the left motor is called before the right one |
| Machine.PassExecutes | app/src/stroller.c:156-163 | a pass followed at once by its device calls is the atomic pass of the follow thread |
| Machine.ChannelsAlwaysTick | app/src/actuator/motor.c:87-92 | in every state reachable from boot by any steps of the threads, device calls and timer expiries, whichever calls fail, all three channels are started with their own period and exact delays, each motor's duty register is its speed, at most 2000, and both bridges show the sign of the last request |
| Machine.TimePasses | drivers/src/motor-spwm.c:65-77 | from every such state the timers alone take the machine past any later instant |
| Machine.CanSettle | app/src/stroller.c:156-163 | from every such remote-mode state, also in the middle of a command, the follow thread can at once come to wait with the newest store executed |
| Machine.VehicleFollows | app/src/actuator/chassis.c:14-54 | in every state reachable with working calls and no command in execution, motors and mirrors hold the last executed speed and turn in range, the pins the sign of the last request; in the middle of a command that holds once it is finished |
| Machine.WheelsFollowIff | app/src/actuator/chassis.c:18-36 | in every such state both wheels turn alike, and as the last accepted speed says iff that is 0 or the last request had its sign |
| EndToEnd.ChannelFires | drivers/src/motor-spwm.c:65-85 | in every run of the machine a channel no device call changes has fired exactly as often as its timer expired, whatever else happens |
| EndToEnd.HighAddsUp | drivers/src/motor-spwm.c:65-85 | the time the pin is high, added up over the ticks of such a run, is the high time of that channel alone |
| EndToEnd.PinsFollowCommands | drivers/overlay.dts:8-9 | from boot to the pins: in every run, after the last command that bears on a channel, its pin is at every instant from the next rising edge on high iff (t mod period) < duty of that command |
| EndToEnd.HighTimeFollowsCommands | drivers/overlay.dts:8-9 | in any window of time from the next rising edge on, without a command that bears on the channel, the pin is high exactly as long as an ideal PWM, in the timed run of the whole machine |
| EndToEnd.FrameIsExecuted | app/src/stroller.c:128-219 | a command frame received in any reachable remote-mode state is exactly what is executed next, once or more, until the follow thread waits again |
| EndToEnd.DirectionFrameTakesEffect | app/src/actuator/chassis.c:40-54 | a DIRECTION frame within 40 degrees, received in any reachable remote-mode state, becomes the last turn, any other leaves it; speeds are untouched |
| EndToEnd.SpeedFrameTakesEffect | app/src/stroller.c:203-212 | a SPEED frame that passes, received in any reachable remote-mode state, becomes the last request and, up to 2000 either way, the last speed; beyond that the speed stays; turns are untouched |
| EndToEnd.CanServe | app/src/stroller.c:128-226 | the situation of the next rows arises: from every reachable remote-mode state with no command in execution any command frame can be served at once, and time then passes to any later instant without another |
| EndToEnd.SpeedFrameOnPins | app/src/actuator/chassis.c:14-38 | once a frame SPEED x, abs(x) at most 2000, is served, and while no other frame comes, both motor pins are at every instant from the next rising edge on, at most 4 ms away, those of an ideal PWM of abs(x) us in 2000 us, and both bridges drive in the direction of x |
| EndToEnd.SpeedFrameHighTime | app/src/actuator/motor.c:32-44 | and in any window of time from that edge on each motor pin is high exactly as long as that ideal PWM: n*abs(x) us in n periods, all the time at 2000 and -2000, never at 0 |
| EndToEnd.StopFrameOnPins | app/src/actuator/chassis.c:14-38 | once a STOP frame is served, and while no other frame comes, both motor pins are low from 4 ms after on |
| EndToEnd.DirectionFrameOnPin | app/src/actuator/chassis.c:40-54 | once a frame DIRECTION x within 40 degrees is served, and until a turn is executed again, the servo pin is from its next rising edge on, at most 40 ms away, that of an ideal PWM of 1500 + 100x/9 us, between 1055 and 1944, in 20 ms |
| Vl6180.Sensor.ChangeAddr | app/src/sensor/sensor_vl6180_op.c:27-46 | the bus, the cached address and the result of the address change |
| Vl6180.Sensor.EnableSensor | app/src/sensor/sensor_vl6180_op.c:48-57 | raising the line and changing the address |
| Vl6180.Sensor.DisableSensor | app/src/sensor/sensor_vl6180_op.c:104-108 | lowering the line leaves the cached address |
| Vl6180.Sensor.InitSensor | app/src/sensor/sensor_vl6180_op.c:145-162 | line low, next target from the table, enable, as one bring-up of BringUpAll; failure is not reported |
| Vl6180.BringUpSettles | app/src/sensor/sensor_vl6180_op.c:145-162 | a bring-up on a settled bus succeeds whatever stale bytes are read; with its line raised the sensor answers at 0x29, and at each step at most one sensor does |
| Vl6180.AllSensorsAddressed | app/src/sensor/sensor_vl6180_op.c:145-162 | any number of sensors with distinct targets, in any order, end at their own targets, known to their drivers, all others off |
| Vl6180.OneAtDefaultThroughout | app/src/sensor/sensor_vl6180_op.c:145-162 | throughout, before, within and after every single bring-up, at most one powered sensor answers at 0x29 |
| Vl6180.StrollerSensors | app/src/sensor/sensor_vl6180_op.c:11-12 | the two sensors end at 0x59 and 0x5a |
| Vl6180.MoveSeparates | app/src/sensor/sensor_vl6180_op.c:33-41 | a move separates a sensor from another iff that one answered neither at the default address nor at the target |
| Vl6180.AbsentSensorReported | app/src/sensor/sensor_vl6180_op.c:37-41 | with no sensor answering, success is reported and the target cached iff the stale byte equals the target; otherwise the change is -2 and the enable -1 |
| Vl6180.EnableAfterDisable | app/src/sensor/sensor_vl6180_op.c:30-32 | enabling again reports success; the cached address is right iff the sensor had not been switched off |
| Hlk2411s.OnlyFramesAccepted | app/src/sensor/sensor_hlk2411s_op.c:27-34 | the buffer test accepts exactly full frames AA AA m lo hi 55 55; a short read never passes |
| Hlk2411s.DecodeEncode | app/src/sensor/sensor_hlk2411s_op.c:36-37 | decoding an encoded motion byte and 16-bit distance gives them back |
| Hlk2411s.Hlk.Loop | app/src/sensor/sensor_hlk2411s_op.c:23-42 | after any reads the published pair is that of the most recent frame, or zeros |
| Hlk2411s.PublishedReadings | app/src/sensor/sensor_hlk2411s_op.c:23-42 | the readings published during a window are the one before it and those of its frames, and no others |
| Hlk2411s.ClientPair | app/src/sensor/sensor_hlk2411s_op.c:89-103 | a pair read in two locked calls was published as a pair at some moment between them iff no frame came, or the last one repeats the old distance, or some frame carries the old motion with the last distance |
| Hlk2411s.ClientPairCanTear | app/src/sensor/sensor_hlk2411s_op.c:89-103 | a frame in between can give a pair that was never published |
| Sw18015.Driver.IrqHandler | drivers/src/sw18015.c:33-39 | an interrupt counts once, as in the step machine, and re-arms the timer to 100 ms from now |
| Sw18015.Driver.Poll | drivers/src/sw18015.c:41-53 | poll reports a non-zero count and clears it, as in the step machine |
| Sw18015.ReadShakes | app/src/sensor/sensor_sw18015_op.c:37-51 | the value is the count at the first ioctl; interrupts between the two are cleared with it |
| Sw18015.CountsConserved | drivers/src/sw18015.c:33-72 | in every interleaving, interrupts = returned + outstanding + in windows + discarded by polls, up to 2^32 wraps |
| Sw18015.ReadsNeverOverCount | app/src/sensor/sensor_sw18015_op.c:42-48 | below 2^31 interrupts reads never over-count, and are exact iff none fell in a window and none was polled away |
| Sw18015.WindowLosesAll | app/src/sensor/sensor_sw18015_op.c:42-48 | any interrupts and polls can fall between the two ioctls of a read, which returns the count at its first ioctl and leaves 0, so none of those interrupts is ever reported |
| Sw18015.DebouncedWakeUp | drivers/src/sw18015.c:27-39 | in every run each burst of interrupts wakes the pollers exactly once, 100 ms after its last interrupt; if the run ends with the timer armed, its expiry is the wake-up of the last burst |
| Sw18015.DebounceInMilliseconds | drivers/src/sw18015.c:36 | in every run each wake-up is 100 ms after an interrupt with none in these 100 ms, every interrupt that none follows within 100 ms has one, and wake-ups are at least 100 ms apart |
| Sw18015.AnyInterrupts | drivers/src/sw18015.c:33-39 | interrupts at any times in order have such a run, within a burst or not |
| Sw18015.WakesAreBurstEnds | drivers/src/sw18015.c:36 | without exact 100 ms coincidences the wake-ups are the burst ends, determined by the interrupts |

## Left out

- Sockets, poll, accept, files, sysfs and termios: their outcomes are inputs; one read delivers 1 to 99 bytes (a 100-byte read leaves no NUL), and `tcp_write` takes the whole message.
- Read errors: `tcp_read_timeout` returning -1 equals `TIMEOUT_RET`, so the code treats it as a timeout, and so does the model; the `break` after it is unreachable.
- Signed overflow in the checksum sum: undefined in C, wrapping here as the target's add does; whenever the sums fit int the two agree.
- Rounding of `float`: speeds and angles are exact reals; an int speed beyond 2^24 is rejected either way. NaN is left out.
- Shutdown (`stlr_stop`, `stlr_destroy`, the signal handler): the code wakes no waiter and joins no thread, so nothing holds of it.
- Auto driving: the source only reads and logs sensors there; it is a step without effect and a locked section.
- Races between a running hrtimer handler or interrupt and an ioctl on another CPU: handlers and ioctls are atomic, and timers expire exactly on time.
- Failure paths of device creation, such as the GPIO lock kept by `gpio_set_direction` when its open fails: creation is assumed to succeed, except the two ioctls of `motor_create`.
- Register writes of the VL6180 other than the address, its measurements, and the AHT10, MQ135 and fake sensors: they would only add single-function codecs.
- The getters of the chassis and of the presence sensor: each returns one field, the latter two as seen by `Hlk2411s.ClientPair`.
- The connection flag is read by a sender without a lock, so `LockOrder` has no datum for it; `Outbox.AcceptedWithoutClient` says what follows.
- The four direction-pin writes of a command are one step; timers do not depend on them.
- The hardware-PWM driver, probe and remove code, `comm_uart_op`, dispatch tables and the log library: only the log lock is modelled.
- `char` is unsigned, as on the aarch64 target: with a signed `char` the decoder of the presence sensor could never match its header.
- The servo driver's 500 to 2500 us limits are stored but never tested by the code, so no member tests them; the pulses the chassis sends are proved to lie within.
- Sw18015.Driver.TimerHandler: the first wake-up, from the timer added at probe, is outside the debounce theorem, which starts with an idle timer.
- LockOrder.LocksCanAlwaysBeReleased: says that a releasing run exists, not that a scheduler takes it, because the source relies on no fairness.
