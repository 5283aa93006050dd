# Verified model of the SZARK robot's control path

SZARK is a mobile robot with an arm. A control server turns requests from a client program into
commands, a bridge board on USB executes them, and two further microcontrollers on an I2C bus drive
the motors and the arm. This project models the logic between a request and a turning motor, in the
imperative form the programs have it (classes whose methods update fields and buffers, each proved
equal to a function on values), and proves properties of whole runs of it.

| file | models |
|---|---|
| `Protocol.dfy` | the USB commands, how the server prints and the bridge parses them |
| `DataHolder.dfy`, `Interface.dfy` | the server's request map, setters, and parsing of replies |
| `Bridge.dfy` | the bridge: latched kill-switch line, command loop, replies |
| `Synchronisation.dfy`, `InterfaceManager.dfy` | differences against the last message, priority merge, polls |
| `Exchange.dfy`, `Runs.dfy` | one exchange as its meaning, and whole runs |
| `SafetyResults.dfy`, `ReleaseResults.dfy`, `ArmRequests.dfy` | the main results about differences, kill, release and the arm |
| `RequestContents.dfy`, `Reports.dfy` | what setters put into the request map, what the device's reports do to it |
| `EndToEnd.dfy` | from a setter's call to the motor or joint |
| `UsiSlave.dfy` | the motor driver's interrupt-driven I2C slave (UM10204, sections 3.1.4, 3.1.6, 3.1.10) |
| `MotorDriver.dfy`, `MotorBus.dfy` | speed levels and PD regulator in 16-bit arithmetic; bus and motors together |
| `ArmJoints.dfy`, `ArmSafety.dfy`, `ArmHoming.dfy`, `ArmRuns.dfy` | the arm's joint table, timer interrupt, commands, calibration |
| `RequestQueuer.dfy` | the server's bounded request queue between producers and an executor thread |

`dafny verify dfyconfig.toml` checks everything.

## How the pipeline is modelled

The robot is a map of registers, one per key of the server's request map, holding the last command of
that key that reached the device behind it. The arm driver stands behind four keys, one per joint and
one for BRAKE and CALIBRATE, so for each joint the last command of either kind is kept as well.
Registers that depend on the kill switch are wiped while the line is active. A step of a run is a
setter call, one synchronisation, a button pressed or let go, a poll of the line by the bridge's main
loop, or the bridge's own time-out. A synchronisation is one step because the server holds a mutex
around it; it goes through the real bytes, padded packet and 64-byte reply included. Readings of
sensors and drivers are parameters of a step, the byte that follows a request's data in memory is a
parameter of a setter, and the order of equal priorities and of equal serials is left open everywhere.

## Where the code does not do what it is for

Each of these has its exact condition, or a run in which it happens.

- `DataHolder::equals` compares one byte more than the data, which no constructor sets. A repeated
  INACTIVE can therefore differ from the remembered one and go out again, beside commands for the
  motors. If a button had killed the robot meanwhile, that message releases it and moves it at once
  (`SafetyResults.MovesWhileKilledIff`, `StaleReleaseReachable`), and a request delivered before the
  press is lost (`CoherentAfterSyncIff`, `DeliveredRequestLost`, `LostFromReset`). None of this can
  happen while callers ask for INACTIVE only when the kill switch is believed active and presses last
  long enough to be seen (`ReleaseResults.CarefulNeverMovesKilled`, `CarefulSyncRefinesFullSync`).
- The other way round, a repeated INACTIVE equal to the remembered one is not sent: after a kill by a
  button the robot cannot be released before ACTIVE was asked for (`ReleaseResults.ReleaseSentIff`,
  `StaysLockedOut`, `LockedOutReachable`).
- A report of a kill stops the motors in the server's picture but keeps their requests: the first
  message after the release takes up the old motion again (`ReleaseResults.ResumesOldMotion`,
  `ResumedFromReset`).
- A press shorter than one turn of the bridge's main loop resets devices without a trace
  (`SafetyResults.ShortPressCoherentIff`, `ShortPressFromReset`).
- `brake()` leaves its request in the map. A joint driven afterwards is not stopped by a second
  `brake()`, which equals the remembered one and is not sent, while the whole map, with BRAKE behind the
  joints, would stop it (`SafetyResults.JointAsFullIff`, `ArmRequests.BrakeSentIff`, `SecondBrakeLost`).
  Likewise a joint's older request counts as delivered after a CALIBRATE took the joint over.
- `setSpeed` of a joint logs the clamped speed but stores the argument cut to a byte
  (`HostInterface.JointSpeedClampedIff`).
- The I2C slave's main loop prepares replies in the middle of a write too
  (`UsiSlave.AnswerCompleteIff`, `AnswerRightIff`, `WrongMotorAnswered`), and executes a message too
  short for its command with bytes of the one before (`MotorBus.ExecutedAsSentIff`, `LeftOverDrives`).
- An interrupted calibration can leave the arm's timer in one-shot mode, and then limit switches and
  encoders are not read any more (`ArmSafety.TimerLeftOneShotIff`, `StaysDeaf`, `LimitStopsIff`,
  `ArmRuns.DeafReachable`).
- An unknown motor id changes the elbow's entry of the joint table but not its pins
  (`ArmSafety.UnknownMotorAgreesIff`).
- The last stores of a calibration set the elbow's position before its mode
  (`ArmSafety.HomingBreaksCourseIff`, `ArmRuns.BrokenCourseReachable`).
- A request with serial 0 is meant to empty the queue and restart the serials. The loop drops the
  lower half only, and what is left, or in the executor's hand, raises the last serial again
  (`RequestQueue.ResetClearsIff`, `ResetRestartsIff`, `LostReset`, `LostResetReachable`).
- The motor driver is configured as a debug build: speed byte 109 sets the reference of the highest
  level and the PWM value of the second (`MotorDriver.SpeedOnLevelIff`); the server sends 0 to 11 only.
- The first regulation after a change of speed or direction sees the impulses of four intervals, and
  a count more than 546 too high overflows: one impulse past that bound turns no power into full power
  (`MotorDriver.RegulatedFromFourthOn`, `OneImpulseTooMany`).
- A timer interrupt between the stores of `setSpeed` can change the value just set, or shorten its
  fixed phase (`MotorDriver.TornSpeedOnLevelIff`, `TornReferenceHoldsTwo`).
- The comment "brake motors" in `init` does not come true: the direction is stop already, so the pins
  are left low (`MotorDriver.BrakeBrakesIff`).

Setters and other methods without a loop are proved equal to a function on values, named after them,
in the same file, and have no row below.

## Model

| member | source | states |
|---|---|---|
| EndToEnd.CallsReachMotor | firmware/bridge/usb_processcommands.cpp:132-139 | over every run of the server, against any state of the bridge and a motor driver at rest in any state: once a motor's request goes out with the line up and believed up, the messages the bridge makes of its register leave the motor of that side in the direction last asked for, at the level last asked for, and the other motor as it was |
| EndToEnd.CallsReachJoint | firmware/bridge/usb_processcommands.cpp:113-131 | the same for a joint, in any state of the arm driver: it goes the way last asked for, or towards the position, if that way is permitted, stands otherwise, and no other joint is touched |
| EndToEnd.MotorCalled | server/common_lib/src/Interface.cpp:170-189 | a run from reset after which a motor's request goes out so |
| EndToEnd.ElbowCalled | server/common_lib/src/Interface.cpp:272-288 | and one for the elbow |
| EndToEnd.MotorCommandObeyed | firmware/bridge/motor_driver.cpp:35-65 | the two messages for a motor command, received and executed one after the other, set direction and level of the motor they name alone |
| EndToEnd.JointCommandObeyed | firmware/bridge/usb_processcommands.cpp:113-131 | the arm driver's commands for a joint command set the joint they name on its way, pins included, and interrupt a calibration |
| SafetyResults.DifferentialSyncRefinesFullSync | server/control_server/src/InterfaceManager.cpp:79-149 | over every run without a stale release or a short press, from any state of the firmware: a synchronisation through the real bytes, made with the line up and believed up, leaves line and registers as if the whole request map had been sent, every request of the map in its register, and a joint of the arm with the same last command exactly under the condition of JointAsFullIff |
| SafetyResults.JointAsFullIff | firmware/bridge/usb_processcommands.cpp:113-131 | the differences leave a joint last told what the whole map would tell it exactly if the addon request is in the message; or it is in the map unsent, the joint's own is unsent too and the addon's was the last to reach the joint; or there is none, and the joint's own is sent, absent, or was the last to reach it |
| ArmRequests.WholeAsFullIff | server/control_server/src/InterfaceManager.cpp:79-149 | the differences make of the whole robot what the whole map would exactly if every joint is so told |
| ArmRequests.WholeSyncWithoutAddon | server/control_server/src/InterfaceManager.cpp:79-149 | over every run, clean as above, in which nobody brakes or calibrates the arm as a whole, a synchronisation leaves the whole robot as the whole map would |
| ArmRequests.BrakeSentIff | server/common_lib/src/Interface.cpp:316-321 | over every run from a brake() to the next message that may carry it: the message carries a BRAKE exactly if it differs from the addon request remembered at the call |
| ArmRequests.SecondBrakeLost | server/common_lib/src/Interface.cpp:316-321 | a run from reset: brake(), a joint driven, brake() again, each delivered as far as it is sent; the elbow still has its command to drive, and the whole map would have stopped it |
| ArmRequests.OrderMatters | firmware/arm_driver/main.cpp:52-75 | in the arm driver a joint told to drive and then braked stands, one braked and then told to drive drives |
| ArmRequests.SetDecides | firmware/arm_driver/main.cpp:48-55 | a directional SET moves its joint as it says if the way is permitted, whatever came before |
| ArmRequests.BrakeDecides | firmware/arm_driver/main.cpp:72-75 | a BRAKE stops every joint, whatever came before |
| ReleaseResults.CarefulSyncRefinesFullSync | server/control_server/src/InterfaceManager.cpp:79-149 | the same as DifferentialSyncRefinesFullSync over every run whose callers ask for INACTIVE only while the kill switch is believed active, as long as no press is too short |
| ReleaseResults.CarefulNeverMovesKilled | server/common_lib/src/Interface.cpp:105-119 | for such callers no packet that finds the line active moves a dependent device, in any run, short presses included |
| ReleaseResults.CarefulNeverMixes | server/common_lib/src/Interface.cpp:105-119 | for such callers no message carries INACTIVE beside a command for a dependent device |
| ReleaseResults.CarefulRunClean | server/control_server/src/InterfaceManager.cpp:118-137 | for such callers the kill-switch request stays equal to the remembered one while the line is believed up, so no release is stale |
| SafetyResults.DifferentialIsFull | server/control_server/src/InterfaceManager.cpp:115-149 | with the line up and believed up, delivering the differences puts every request of the map in its register, and leaves line and registers as delivering the whole map would; the last commands of the joints apart |
| SafetyResults.CoherentAfterSyncIff | server/control_server/src/InterfaceManager.cpp:115-149 | after a synchronisation the registers of dependent devices are the remembered requests exactly if it was no stale release, or one that left no dependent request unsent |
| SafetyResults.CleanRunCoherent | server/control_server/src/InterfaceManager.cpp:115-149 | in every run without a stale release or a short press, the dependent registers equal the remembered requests whenever the line is up |
| SafetyResults.MovesWhileKilledIff | firmware/bridge/killswitch.cpp:25-75 | a packet that finds the line active moves a dependent device exactly in a stale release that carries something for one; otherwise the first such command comes in a later packet, after the reply that reported the release |
| SafetyResults.MixedMessageIff | server/control_server/src/InterfaceManager.cpp:79-98 | a message carries INACTIVE beside a command for a dependent device exactly if the server believes the line up and the repeated INACTIVE differs from the remembered one in the byte after its data |
| SafetyResults.ResentIffSlackDiffers | server/common_lib/src/DataHolder.cpp:56-75 | while the line is believed up, the kill-switch request is sent again exactly if that one byte differs; the wire bytes are the same |
| SafetyResults.KilledSendsNoDependent | server/control_server/src/InterfaceManager.cpp:139-147 | while the kill switch is believed active a message carries the kill-switch and display requests that are new, and nothing else |
| SafetyResults.BeliefIsLastReport | server/common_lib/src/Interface.cpp:105-119 | over every run the server takes the line to be up exactly if the last reply said so and no activation was asked for since, and dependent commands are sent only then |
| SafetyResults.LineReleasedIff | firmware/bridge/killswitch.cpp:34-46 | an active line comes up in a message exactly if it carries INACTIVE and no button holds the line |
| SafetyResults.FullResendWouldRelease | server/control_server/src/InterfaceManager.cpp:115-149 | a robot killed by hardware stays killed by the differences of a server that does not know yet; the whole map would release it |
| SafetyResults.UnchangedInStep | server/control_server/src/InterfaceManager.cpp:118-131 | a request left out of a message is already in its register |
| SafetyResults.StaleReleaseReachable | server/common_lib/src/DataHolder.cpp:56-75 | a run from reset that ends in a stale release with a motor command in the same message |
| SafetyResults.DeliveredRequestLost | server/control_server/src/InterfaceManager.cpp:118-137 | from any world just synchronised: a press, seen and let go, and INACTIVE asked for again with another byte behind it make the next synchronisation release the robot without a request it had been given; a further one does not send it either |
| SafetyResults.LostFromReset | server/control_server/src/InterfaceManager.cpp:118-137 | such a run from reset: it ends with the line up and believed up and a motor request that is in the map but not on the robot |
| SafetyResults.ShortPressCoherentIff | firmware/bridge/killswitch.cpp:64-75 | a press let go before the main loop saw it parts robot and memory exactly if the memory holds a dependent request |
| SafetyResults.ShortPressLoses | firmware/bridge/killswitch.cpp:64-75 | from any world just synchronised: such a press and a synchronisation end up and believed up, with a delivered request off the robot |
| SafetyResults.ShortPressFromReset | firmware/bridge/killswitch.cpp:64-75 | such a run from reset |
| ReleaseResults.ReleaseSentIff | server/control_server/src/InterfaceManager.cpp:118-131 | a synchronisation lets an active line up, with no button down and INACTIVE in the map, exactly if that request differs from the remembered one |
| ReleaseResults.StaysLockedOut | server/control_server/src/InterfaceManager.cpp:118-137 | over every run: a robot latched by a button after INACTIVE was delivered stays killed, however often INACTIVE is asked for with the same byte behind it |
| ReleaseResults.LockedOutReachable | server/control_server/src/InterfaceManager.cpp:118-137 | a run from reset into that state |
| ReleaseResults.FirstMessageAfterRelease | server/control_server/src/InterfaceManager.cpp:139-147 | over every run the first message after a synchronisation in the killed state carries exactly the dependent requests in the map, old ones included |
| ReleaseResults.ReportStopsPicture | server/common_lib/src/Interface.cpp:125-129 | the report of a kill makes the server show both motors stopped |
| ReleaseResults.MotorRequestKept | server/common_lib/src/Interface.cpp:563-580 | but in every run a motor request stays in the map until a setter of its motor replaces it |
| ReleaseResults.ResumesOldMotion | server/control_server/src/InterfaceManager.cpp:115-149 | so the first message after the release puts the motor back to what it was commanded before the kill |
| ReleaseResults.ResumedAfterRelease | server/control_server/src/InterfaceManager.cpp:115-149 | from any world just synchronised: a kill and a release by software, each delivered, end there |
| ReleaseResults.ResumedFromReset | server/control_server/src/InterfaceManager.cpp:115-149 | such a run from reset |
| RequestContents.MotorRequestAsAsked | server/common_lib/src/Interface.cpp:140-189 | over every run: the bytes of a motor's request name it and say the direction last asked for, as the motor driver reads it, and the last speed cut at 11, a reported kill counting as a stop; the request is there from the first call on |
| RequestContents.JointRequestAsAsked | server/common_lib/src/Interface.cpp:214-314 | over every run: the bytes of a joint's request name it and say what the last call that was not ignored asked for, and for the rest what was asked for or reported before |
| RequestContents.PanelRequestsAsAsked | server/common_lib/src/Interface.cpp:79-119 | over every run: the requests say the kill switch last asked for, the lights as last switched, and the last text that differed from the one on the display, cut at 33 characters |
| RequestContents.CalibrationLocksJoints | server/common_lib/src/Interface.cpp:249-314 | over every run from calibrate() on, until a kill or the end of the calibration is reported, no call changes the request of a joint |
| RequestContents.CalibrationEndsIff | server/common_lib/src/Interface.cpp:399-412 | a synchronisation ends a calibration in progress exactly if it reports a kill, or its turn to ask for the arm as a whole finds it calibrated |
| RequestContents.CalibrateOnce | server/common_lib/src/Interface.cpp:323-334 | calibrate() requests CALIBRATE and shows the arm calibrating; a second call meanwhile does nothing |
| Reports.AddonOnlyIfAsked | server/common_lib/src/Interface.cpp:550-558 | over every run from a reported kill on, a message carries a BRAKE only if brake() was called since, and a CALIBRATE only if calibrate() was |
| Reports.AddonAfterSyncIff | server/common_lib/src/Interface.cpp:399-412 | a synchronisation leaves the arm's addon request in the map exactly if it reports neither a kill nor the end of a calibration in progress |
| Reports.AbsorbAllAddonIff | server/common_lib/src/Interface.cpp:550-558 | the same for any list of polled values |
| Reports.KillTaken | server/common_lib/src/Interface.cpp:516-571 | a state report with the kill switch active takes exactly the addon request out of the map, ends a calibration, stops motors and joints in the picture and forgets the text |
| Reports.NoKillTaken | server/common_lib/src/Interface.cpp:516-548 | any other state report changes the belief and the sensors alone |
| Reports.GeneralTaken | server/common_lib/src/Interface.cpp:399-427 | a report of the arm ends a calibration in progress, and takes its request out, exactly if it says calibrated; the mode by its code |
| Reports.JointTaken | server/common_lib/src/Interface.cpp:470-514 | a joint report goes to the joint it names: direction, speed and position |
| Reports.MotorTaken | server/common_lib/src/Interface.cpp:429-468 | a motor report goes to the motor it names |
| Reports.EveryDevicePolled | server/control_server/src/InterfaceManager.cpp:30-77 | of any two polls in a row one is for each motor, of any four one for each joint and one for the arm as a whole |
| Reports.CalibrationNoticed | server/control_server/src/InterfaceManager.cpp:30-77 | over every run with the line up, a finished calibration is noticed by the fourth synchronisation at the latest |
| Reports.CauseTold | firmware/bridge/killswitch.cpp:25-75 | over every run: the flag for software says exactly whether a command took the line down, the flag for hardware never blames a button for that, and says exactly whether a button did once the main loop has looked |
| Reports.CauseShown | server/common_lib/src/Interface.cpp:521-530 | after a synchronisation the server shows that flag |
| Reports.BlameIsLastReport | server/common_lib/src/Interface.cpp:105-119 | over every run the server blames a button exactly if the last report did and no kill was asked for since |
| SafetyResults.AnyPacketFailsSafe | firmware/bridge/usb_processcommands.cpp:67-74 | whatever bytes a packet holds, it lets an active line up only if no button is down and it holds a SET_KILLSWITCH followed by zero |
| Exchange.SyncExact | server/control_server/src/InterfaceManager.cpp:79-113 | one synchronisation through its bytes, for every order the queue may choose: nothing overruns, no exception is thrown, and the outcome is the changes delivered and the polled values absorbed |
| Exchange.ResponseRoundTrip | server/common_lib/src/Interface.cpp:354-385 | the bytes pushed for any list of getters are consumed getter by getter, each value taken, and parsing ends on MESSAGE_END; neither exception can be thrown |
| Exchange.ReplyTaken | server/common_lib/src/Interface.cpp:387-548 | a listener takes exactly the bytes the bridge pushed for its getter, and the device's value |
| Exchange.ReplyBound | firmware/bridge/usb_processcommands.cpp:52-112 | a reply is at most 17 bytes, so it fits its 64-byte packet with the end mark |
| Exchange.PacketAnswered | firmware/bridge/usb_support.cpp:111-134 | the packet of a synchronisation delivers exactly the changes and is answered, in 64 bytes, by the replies to the polls |
| Exchange.ReplyAbsorbed | server/common_lib/src/Interface.cpp:354-385 | that answer is read back as the device's values |
| Exchange.MergeDelivers | server/control_server/src/InterfaceManager.cpp:81-93 | whatever order the queue makes of equal priorities, a message has the same effect on the robot |
| Exchange.OrderIrrelevant | server/control_server/src/InterfaceManager.cpp:81-93 | behind the kill switch's command the order of a message matters for the arm only: with a command to all joints behind those to one, every joint is last told the former if there is one, else its own |
| Exchange.KillSwitchFirst | server/common_lib/include/DataHolder.hpp:134-139 | a kill-switch command is the first of its message and the only one |
| Exchange.AddonAfterJoints | server/common_lib/include/DataHolder.hpp:134-139 | no joint SET follows a BRAKE or CALIBRATE in a message |
| Exchange.GettersOnly | firmware/bridge/usb_processcommands.cpp:52-112 | polls leave the robot as it is and push a bounded reply |
| Synchronisation.PacketRoundTrip | firmware/bridge/usb_processcommands.cpp:46-161 | the firmware loop run on the padded packet of any request map and poll counter ends by itself and executes exactly the encoded commands, in order |
| Synchronisation.MessageBound | server/control_server/src/InterfaceManager.cpp:84-98 | every message has at most 73 bytes, so resizing it to 128 never truncates |
| Protocol.ParseRoundTrip | firmware/bridge/usb_processcommands.cpp:50-158 | printed commands closed by MESSAGE_END are read back exactly, whatever follows and whatever the payload bytes look like |
| Protocol.ItemRoundTrip | firmware/bridge/usb_processcommands.cpp:51-151 | one printed command is read back as itself at any position; the forms of ARM_DRIVER_SET are told apart |
| Runs.RunSound | server/control_server/src/InterfaceManager.cpp:79-149 | in every run of setters, synchronisations, presses and time-outs the invariant of server, memory and robot holds |
| Runs.NextSound | server/control_server/src/InterfaceManager.cpp:79-149 | every step keeps that invariant, and no synchronisation fails |
| Runs.SyncSound | server/control_server/src/InterfaceManager.cpp:79-149 | a synchronisation keeps it: independent registers equal the remembered requests, and a robot killed by command is believed killed |
| Runs.HostStepSound | server/common_lib/src/Interface.cpp:79-348 | every setter keeps the request map well-formed (what it puts there: RequestContents), and only an activation changes the belief about the line |
| Runs.DeviceStepSound | firmware/bridge/killswitch.cpp:25-75 | presses, polls of the line and the time-out wipe dependent registers only; an active line comes up without a command exactly by a press let go before the main loop saw it |
| Runs.AbsorbAllKeeps | server/common_lib/src/Interface.cpp:387-571 | polled values change no request except that the arm's addon request may be taken out, and is by a reported kill, and set the belief to the line's state |
| Runs.DeliveredAt | firmware/bridge/usb_processcommands.cpp:67-148 | the register of each key after a message: the request sent, or nothing while the line is down, or what it was |
| Runs.EncodeInjective | server/common_lib/src/Interface.cpp:79-348 | two commands of one key with the same bytes are the same command |
| Runs.StartSound | server/common_lib/src/Interface.cpp:36-63 | a starting server and a bridge in any state of its firmware satisfy the invariants |
| Manager.InterfaceManager.SyncWithDevice | server/control_server/src/InterfaceManager.cpp:79-113 | the objects do what one synchronisation means, on the wire and in memory |
| Manager.InterfaceManager.Prepare | server/control_server/src/InterfaceManager.cpp:81-98 | the message and the getters it asks for |
| Manager.InterfaceManager.Transfer | firmware/bridge/usb_support.cpp:111-134 | the message delivers the changes, and the answer to its polls comes back |
| Manager.InterfaceManager.GenerateDifferentialRequests | server/control_server/src/InterfaceManager.cpp:115-149 | the differences, and the new memory without what the kill switch held back |
| Manager.InterfaceManager.Compare | server/control_server/src/InterfaceManager.cpp:118-131 | the requests that are new or unequal to the remembered ones |
| Manager.InterfaceManager.CopyRequests | server/control_server/src/InterfaceManager.cpp:133-137 | the memory becomes the request map |
| Manager.InterfaceManager.Merge | server/control_server/src/InterfaceManager.cpp:81-93 | the draining of the queue gives each changed key once, by priority, and its bytes |
| Manager.InterfaceManager.GenerateGetRequests | server/control_server/src/InterfaceManager.cpp:30-77 | the printed polls, their codes in order, and the counter |
| DataHolders.DataHolder.constructor | server/common_lib/src/DataHolder.cpp:22-31 | request code and payload in the buffer; the byte after them is whatever the memory held |
| DataHolders.DataHolder.Assign | server/common_lib/src/DataHolder.cpp:47-54 | copying takes the byte after the data along |
| DataHolders.DataHolder.Equals | server/common_lib/src/DataHolder.cpp:56-75 | true exactly if fields, data and the byte after the data agree; so true implies equal wire bytes, but not the other way round |
| HostInterface.Interface.constructor | server/common_lib/src/Interface.cpp:36-63 | a new server asks for an active kill switch and believes it |
| HostInterface.Interface.SetKillSwitch | server/common_lib/src/Interface.cpp:105-119 | activation is believed at once, deactivation only requested |
| HostInterface.JointSpeedClampedIff | server/common_lib/src/Interface.cpp:249-270 | the speed stored is the clamped one exactly if the argument fits a byte or is 255 modulo 256 |
| HostInterface.OneLightSwitched | server/common_lib/src/Interface.cpp:336-352 | switching one light leaves the others as they were |
| HostInterface.Interface.UpdateListener | server/common_lib/src/Interface.cpp:387-548 | what each of the eight listeners makes of a getter's answer, and the bytes it takes; a reported kill takes the addon request out of the map |
| HostInterface.Interface.OfferToListeners | server/common_lib/src/Interface.cpp:359-374 | the first listener that takes bytes wins |
| HostInterface.Interface.UpdateDataStructures | server/common_lib/src/Interface.cpp:354-385 | the whole response, and exactly when which exception is thrown |
| HostInterface.ExactlyOneListener | server/common_lib/src/Interface.cpp:45-56 | each getter's answer is taken by one listener and refused by all others |
| BridgeFirmware.Bridge.SetActive | firmware/bridge/killswitch.cpp:25-47 | the latched line: who caused it, and what a button still holding it does to a release |
| BridgeFirmware.HardwareCheckedTwice | firmware/bridge/killswitch.cpp:64-75 | polling the line again changes nothing, so the wait of 5 ms is one poll |
| BridgeFirmware.Bridge.Fetch | firmware/bridge/usb_processcommands.cpp:50-158 | the switch finds the command standing at a position, and its length |
| BridgeFirmware.Bridge.ExecuteCommands | firmware/bridge/usb_processcommands.cpp:46-161 | for every packet: the loop performs exactly the parsed commands, one after the other, and ends by itself, by a reset command, or at the point where it would leave a buffer |
| BridgeFirmware.Bridge.ExecuteNext | firmware/bridge/usb_processcommands.cpp:50-158 | one turn of the loop |
| BridgeFirmware.Bridge.Poll | firmware/bridge/usb_support.cpp:111-134 | any packet in; 64 bytes of reply out and the robot changed accordingly, or the way in which no reply comes |
| BridgeFirmware.Buffer.Init | firmware/bridge/usb_processcommands.cpp:36-40 | the buffer full of end marks |
| BridgeFirmware.Buffer.Push | firmware/bridge/usb_processcommands.cpp:28-34 | bytes appended, end marks behind them kept |
| UsiSlave.MessageFrozen | firmware/motor_driver/i2c-slave.cpp:153-176 | in every interleaving, from a reported message until it is done, receive buffer and length do not change |
| UsiSlave.WriteAcceptedIff | firmware/motor_driver/i2c-slave.cpp:256-271 | an address byte opens a write exactly if it is the slave's for writing, or the general call, and no message waits; while one waits it is refused |
| UsiSlave.ReportedMessage | firmware/motor_driver/i2c-slave.cpp:303-322 | a reported message is the first four, or fewer, of the bytes the master sent in that transaction |
| UsiSlave.HandledMessage | firmware/motor_driver/i2c-slave.cpp:303-322 | and stays so of the whole transaction while it is handled |
| UsiSlave.ReportedLengthIsLowerBound | firmware/motor_driver/i2c-slave.cpp:153-167 | the length reported is positive but may be less than the length in the buffer |
| UsiSlave.ReadStream | firmware/motor_driver/i2c-slave.cpp:273-301 | within a read the buffer is constant and byte i sent is the buffer's byte at i modulo its length |
| UsiSlave.AnswerGoesOnIff | firmware/motor_driver/i2c-slave.cpp:273-301 | an acknowledge bit makes the slave send the next byte, the lack of one ends its answer |
| UsiSlave.ReadAnsweredIff | firmware/motor_driver/i2c-slave.cpp:256-266 | a read is answered exactly if the slave's own address comes for reading and a reply stands; accepting a write takes the old reply out |
| UsiSlave.AnswerCompleteIff | firmware/motor_driver/main.cpp:33-45 | in every run what a read gets is the reply prepared at the last reply phase from the first bytes of the message over left-over ones; it is prepared from the complete message exactly if no byte of it was stored after that phase |
| UsiSlave.AnswerRightIff | firmware/motor_driver/main.cpp:36-45 | and is the answer to the complete message, whatever the motors show, exactly if the bytes stored after that phase changed neither the getter nor the motor asked for |
| UsiSlave.EarlyReplyAnswered | firmware/motor_driver/main.cpp:33-45 | the reply phase does come by in the middle of a write: from any such point a read after one more byte is answered from the buffer before that byte |
| UsiSlave.WrongMotorAnswered | firmware/motor_driver/main.cpp:36-45 | a run from reset in which the speed of motor 2 is asked for and that of motor 1 is told |
| MotorBus.ExecutedOnce | firmware/motor_driver/main.cpp:47-64 | in every run of bus, main loop and motors each accepted write that brought a byte is executed exactly once, but for the one still waiting, and none is accepted while one waits |
| MotorBus.ExecutedAsSentIff | firmware/motor_driver/main.cpp:47-62 | a message is executed as it was sent, whatever was in the buffer before, exactly if it has the bytes its command needs |
| MotorBus.ExecutesSent | firmware/motor_driver/main.cpp:47-62 | in every run the main loop executes the first four bytes sent over what the buffer held when the write was accepted |
| MotorBus.MessageRun | firmware/motor_driver/main.cpp:33-64 | from any idle state every message of one to four bytes can be received and is then executed over what the buffer held |
| MotorBus.LeftOverDrives | firmware/motor_driver/main.cpp:47-62 | a run from reset: SET_DIRECTION sent without its direction drives motor 1 forward, by the byte left over from SET_SPEED |
| MotorBus.MessagesObeyed | firmware/motor_driver/main.cpp:47-62 | in every run a message with the bytes it needs is obeyed: BRAKE stops both motors and their output; SET_SPEED gives the motor it names, and no other, the reference of the level and its own PWM value; SET_DIRECTION turns the motor it names, and no other; anything else moves none |
| MotorBus.MessageObeyed | firmware/motor_driver/main.cpp:47-62 | and from rest every such message can be sent and is obeyed |
| MotorBus.ShowsAskedMotor | firmware/motor_driver/main.cpp:36-45 | the reply phase answers with the power or the direction of the motor the question names |
| MotorBus.SpeedAnswered | firmware/bridge/motor_driver.cpp:15-33 | from rest a master that asks for the power of a motor reads that motor's |
| UsiSlave.NextInv | firmware/motor_driver/i2c-slave.cpp:208-330 | every interrupt, bus event and main-loop step keeps the invariant; all indices stay in range |
| UsiSlave.RunInv | firmware/motor_driver/i2c-slave.cpp:208-330 | the invariant holds in every interleaving |
| UsiSlave.StartInv | firmware/motor_driver/i2c-slave.cpp:125-138 | it holds after initialisation |
| UsiSlave.Driver.OverflowIsr | firmware/motor_driver/i2c-slave.cpp:249-330 | the state machine on the two buffers |
| UsiSlave.Driver.MessageReady | firmware/motor_driver/i2c-slave.cpp:153-167 | the three cases of a transmission still pending |
| UsiSlave.Driver.Reply | firmware/motor_driver/main.cpp:35-45 | the reply by getter and motor in the receive buffer, unless a read is going on |
| ArmHoming.CalibratedAtHome | firmware/arm_driver/joint.cpp:353-468 | over every run in which a calibration receives no command: it cannot fail, and when it is over all joints stand calibrated, shoulder at 0 and elbow at its maximum, the gripper at either end, and a joint whose way is blocked stands at the end that blocks it |
| ArmHoming.CalibratedReachesAll | firmware/arm_driver/joint.cpp:191-212 | from there setPosition sends shoulder and elbow on their way to every other position in range |
| ArmHoming.HomesWhereDriven | firmware/arm_driver/joint.cpp:417-456 | the position stored at the end is that of the limit the joint was last driven to; the other joints stay |
| ArmHoming.WaysLeadHome | firmware/arm_driver/joint.cpp:366-419 | a joint on a switch is first driven to its neutral end, off it again if it is still on one, and in the end all go there |
| ArmHoming.CommandEndsCalibration | firmware/arm_driver/joint.cpp:383-452 | any command but a getter before the last check keeps a calibration from completing: in no run is the driver calibrated before the next one has begun |
| ArmHoming.ReleaseFrees | firmware/arm_driver/joint.cpp:534-543 | the sixth open reading of a held switch permits both ways again; a gripper counts as open |
| ArmHoming.IdlePressKeepsWays | firmware/arm_driver/joint.cpp:505-533 | a switch that closes under a standing joint leaves its permitted ways and position as they were |
| ArmHoming.GripperOpensOrCloses | firmware/arm_driver/joint.cpp:197-199 | over every run the gripper is never on its way to a position in between |
| ArmHoming.GripperCountsNothing | firmware/arm_driver/joint.cpp:550-558 | a tick that does not flip its switch leaves the gripper's position alone |
| ArmSafety.PositionalConverges | firmware/arm_driver/joint.cpp:556-573 | over every run in which no command or calibration step addresses it and its limit is not reached: a shoulder or elbow sent to a position is exactly the seen edges closer while they do not exceed the distance; from the next edge on it stands on the target, out of positional mode |
| ArmSafety.ApproachStep | firmware/arm_driver/joint.cpp:546-577 | one tick: the distance shrinks by one on an edge and not otherwise; on target the edge stops the joint |
| ArmSafety.SentIffPermitted | firmware/arm_driver/joint.cpp:191-212 | setPosition sends a calibrated joint on its way exactly if the way is permitted |
| ArmSafety.LimitHolds | firmware/arm_driver/joint.cpp:505-543 | over all runs: once a press is registered while driving one way, nothing drives the joint that way before a debounced release or a new calibration |
| ArmSafety.PressRegistered | firmware/arm_driver/joint.cpp:505-533 | the tick with the sixth closed reading of a driven joint stops it, forbids the way it went, sets its position and counts as its press |
| ArmSafety.RunInv | firmware/arm_driver/joint.cpp:117-579 | in every interleaving of ticks, commands and calibration steps: a driven direction is a permitted one; positions, debounce counts and the target of positional mode stay in range; a joint in positional mode has not passed its target outside the last stores of a calibration |
| ArmSafety.NextInv | firmware/arm_driver/joint.cpp:117-579 | each such step keeps that invariant |
| ArmSafety.StartInv | firmware/arm_driver/joint.cpp:287-316 | it holds after a reset from any legal contents of the preserved table |
| ArmSafety.CalibratedOnlyIf | firmware/arm_driver/joint.cpp:353-468 | the driver calls itself calibrated only at the end of a calibration in which shoulder, elbow and gripper each registered a press and all three checks found no interruption |
| ArmSafety.HomingBreaksCourseIff | firmware/arm_driver/joint.cpp:454-463 | the position stored for the elbow before its mode puts it past its target exactly if a command that slipped in drives it forward to a lower one |
| ArmRuns.BrokenCourseReachable | firmware/arm_driver/joint.cpp:436-463 | a run from reset in which that happens |
| ArmSafety.HoldsForFive | firmware/arm_driver/joint.cpp:505-543 | over every run of ticks, commands and calibration steps, counted from the last flip: a debounced switch state holds through any five disagreeing readings, spread out however they are |
| ArmSafety.FlipsOnSixth | firmware/arm_driver/joint.cpp:505-543 | and flips on the sixth |
| ArmSafety.RunDebounces | firmware/arm_driver/joint.cpp:505-543 | in every such run the debounced state is what the readings of its switch alone make of it |
| ArmSafety.MainEdits | firmware/arm_driver/joint.cpp:353-468 | all a calibration step can do to a joint: direct it, permit both ways at the start, or store flag, mode and, at the end, the position of its neutral end |
| ArmSafety.PinsFollowTable | firmware/arm_driver/joint.cpp:132-188 | as long as commands name existing motors, the pins say what the table says, in every run |
| ArmSafety.PinsPermitted | firmware/arm_driver/joint.cpp:117-188 | and drive a motor only in a permitted direction |
| ArmSafety.UnknownMotorAgreesIff | firmware/arm_driver/joint.cpp:583-597 | a command for an unknown motor id changes the elbow's entry but no pin; they agree afterwards exactly if the entry says what the pins were told |
| ArmSafety.TimerLeftOneShotIff | firmware/arm_driver/joint.cpp:383-452 | an interrupted calibration leaves the timer in one-shot mode exactly if it was interrupted before the last wait |
| ArmSafety.StaysDeaf | firmware/arm_driver/joint.cpp:498-503 | from then on, until the next CALIBRATE, no tick reads a limit switch or an encoder |
| ArmSafety.LimitStopsIff | firmware/arm_driver/joint.cpp:498-543 | a limit switch stops a driven joint exactly if the timer is not in one-shot mode |
| ArmRuns.DeafReachable | firmware/arm_driver/joint.cpp:383-393 | a run from reset after which the elbow is driven and no tick reads its limit switch, open or closed |
| ArmSafety.BrakeKeepsBlock | firmware/arm_driver/joint.cpp:214-221 | braking all joints lifts no limit |
| ArmJoints.ArmDriver.SetDirection | firmware/arm_driver/joint.cpp:117-189 | entry and pins after a direction command, permitted or not |
| ArmJoints.ArmDriver.SetPosition | firmware/arm_driver/joint.cpp:191-212 | refused if uncalibrated or out of range; otherwise aimed and started |
| ArmJoints.ArmDriver.BrakeAll | firmware/arm_driver/joint.cpp:214-221 | every entry of the table stopped in turn |
| ArmJoints.ArmDriver.ProcessCommand | firmware/arm_driver/main.cpp:42-81 | every command that sets something interrupts a calibration |
| ArmJoints.ArmDriver.DebounceAll | firmware/arm_driver/joint.cpp:505-544 | all limit switches of a tick |
| ArmJoints.ArmDriver.SampleEncoders | firmware/arm_driver/joint.cpp:546-554 | old levels kept, new ones read for shoulder and elbow only |
| ArmJoints.ArmDriver.CountAll | firmware/arm_driver/joint.cpp:556-577 | all encoders of a tick |
| ArmJoints.ArmDriver.TimerIsr | firmware/arm_driver/joint.cpp:498-579 | the timer interrupt in both of its modes |
| RequestQueue.ExactlyOnePlace | server/control_server/src/RequestQueuer.cpp:55-207 | in every interleaving of producers and executor the queue holds at most 100 requests, ids are fresh, and each accepted request is in exactly one place: queued, in hand, executed, skipped, evicted or dropped |
| RequestQueue.ExecutedOnce | server/control_server/src/RequestQueuer.cpp:144-207 | no id is executed twice |
| RequestQueue.SerialsNeverDecrease | server/control_server/src/RequestQueuer.cpp:158-168 | between two accepted resets the executed serials never decrease, though the executor compares and assigns outside the lock |
| RequestQueue.RefusedIff | server/control_server/src/RequestQueuer.cpp:87-90 | a positive serial is refused exactly if one at least as high was executed since the last reset |
| RequestQueue.SkippedIff | server/control_server/src/RequestQueuer.cpp:163-165 | a request in hand is skipped exactly if a higher one was |
| RequestQueue.ResetClearsIff | server/control_server/src/RequestQueuer.cpp:108-114 | a reset leaves only itself in the queue exactly if at most one request was queued; otherwise half of them stay, none with a lower serial than one that went |
| RequestQueue.ResetRestartsIff | server/control_server/src/RequestQueuer.cpp:108-114 | once the executor has caught up, every positive serial is accepted again exactly if no request in hand or left in the queue by the reset had a positive serial |
| RequestQueue.DrainedToHigh | server/control_server/src/RequestQueuer.cpp:158-168 | an executor left to itself ends with the highest serial among the last one and those pending |
| RequestQueue.Drains | server/control_server/src/RequestQueuer.cpp:144-168 | and it can always get there, in a bounded number of steps |
| RequestQueue.SkipsNothingIff | server/control_server/src/RequestQueuer.hpp:46-52 | left to itself until nothing is pending, the executor skips nothing exactly if it finds nothing pending lower than the last serial and nothing queued lower than what it has in hand |
| RequestQueue.NothingSkipped | server/control_server/src/RequestQueuer.hpp:46-52 | that it finds things so stays true in every such run, and nothing is skipped on the way |
| RequestQueue.ExecutesAllInOrder | server/control_server/src/RequestQueuer.cpp:158-168 | every request then pending is executed, once, lower serials before higher ones |
| RequestQueue.LossesLowest | server/control_server/src/RequestQueuer.cpp:94-114 | what a full queue or a reset takes away has the lowest serials: none that stays is lower |
| RequestQueue.LostReset | server/control_server/src/RequestQueuer.cpp:158-168 | a reset between the executor's compare and its assignment is lost: its own request is skipped, low serials stay refused |
| RequestQueue.LostResetReachable | server/control_server/src/RequestQueuer.cpp:158-168 | such a run from the start, for every positive serial in the executor's hand |
| RequestQueue.NextConserves | server/control_server/src/RequestQueuer.cpp:55-168 | every step of producer or executor conserves the requests |
| RequestQueue.NextOrdered | server/control_server/src/RequestQueuer.cpp:87-168 | every step keeps the last serial the highest executed since the reset |
| RequestQueue.RunKeeps | server/control_server/src/RequestQueuer.cpp:55-168 | both hold in every run |
| RequestQueue.RequestQueuer.AddRequest | server/control_server/src/RequestQueuer.cpp:55-127 | refused without a trace, or queued under a fresh id; what is evicted and what is dropped, none of it with a higher serial than what stays, and what the remover is told |
| RequestQueue.RequestQueuer.Admit | server/control_server/src/RequestQueuer.cpp:94-126 | eviction, reset and push, lowest serials first, for a serial that is not too old |
| RequestQueue.RequestQueuer.MakeRoom | server/control_server/src/RequestQueuer.cpp:94-106 | a full queue loses its lowest request and the remover hears its id; no other queue loses any |
| RequestQueue.RequestQueuer.PopWhileCounting | server/control_server/src/RequestQueuer.cpp:110-112 | the loop against the shrinking size drops exactly the lower half, rounded up |
| MotorDriver.ExactIff | firmware/motor_driver/controller.cpp:19-36 | no 16-bit intermediate overflows exactly if the count is at most 546 off and the error moved by at most 1092 |
| MotorDriver.ExactIsIdeal | firmware/motor_driver/controller.cpp:19-36 | the result then equals the PD formula over the integers with truncating divisions, clamped to a byte |
| MotorDriver.RunExactIff | firmware/motor_driver/controller.cpp:19-36 | over every run the derivative term overflows only after the proportional one: all regulations are exact exactly if every count regulated is at most 546 off |
| MotorDriver.MoreImpulsesLessPower | firmware/motor_driver/controller.cpp:19-36 | within that range the power never rises with the count |
| MotorDriver.OneImpulseTooMany | firmware/motor_driver/controller.cpp:19-36 | at 547 impulses instead of 546 the wrapped product turns no power into full power |
| MotorDriver.WrapsModulo | firmware/motor_driver/controller.cpp:20-25 | the 16-bit values are two's complement |
| MotorDriver.HundredthTruncates | firmware/motor_driver/controller.cpp:24-25 | the divisions round towards zero |
| MotorDriver.LimitNearest | firmware/motor_driver/controller.cpp:9-17 | the clamping picks the nearest byte |
| MotorDriver.RunInTable | firmware/motor_driver/motor.cpp:101-118 | in every run, whatever bytes are sent for a speed, the reference is an entry of the table and the fixed phase at most three interrupts long |
| MotorDriver.RunDirectionOnLevel | firmware/motor_driver/motor.cpp:185-202 | so in every run a new direction finds the one index of the reference and fixes the PWM value listed there |
| MotorDriver.RunOnLevel | firmware/motor_driver/motor.cpp:101-205 | in every run without the letter m as a speed, a fixed PWM value is the one listed for the reference |
| MotorDriver.FirstIsIndex | firmware/motor_driver/motor.cpp:185-191 | the search finds the one index of a level |
| MotorDriver.SpeedOnLevelIff | firmware/motor_driver/motor.cpp:101-124 | a new speed sets reference and PWM value of the same level exactly if the byte is not the letter m |
| MotorDriver.HeldThroughThree | firmware/motor_driver/motor.cpp:215-226 | without commands the PWM value is held while the fixed phase lasts, and impulses are counted on |
| MotorDriver.RegulatedFromFourthOn | firmware/motor_driver/motor.cpp:20-25 | a command that changes speed or direction fixes the PWM value for three timer interrupts; the fourth regulates, on all impulses counted meanwhile |
| MotorDriver.CountsOneInterval | firmware/motor_driver/controller.cpp:19-31 | a regulation takes the impulses since the one before for the speed, and its error for the previous one |
| MotorDriver.StoppedLosesPower | firmware/motor_driver/controller.cpp:32-35 | a motor left stopped has no power and no remembered error once its fixed phase is over |
| MotorDriver.TornSpeedOnLevelIff | firmware/motor_driver/motor.cpp:112-116 | a timer interrupt after the first store of setSpeed leaves the level's PWM value exactly if a fixed phase was running, or a stopped motor is set to no power, or the correction for the old reference has no effect on it |
| MotorDriver.TornReferenceHoldsTwo | firmware/motor_driver/motor.cpp:113-116 | one after the second store leaves the value, but the fixed phase is two interrupts long instead of three |
| MotorDriver.LeavesPowerIff | firmware/motor_driver/controller.cpp:24-31 | the regulator leaves the power alone exactly if its correction is zero or pushes past a limit already reached |
| MotorDriver.PinsStayAgreed | firmware/motor_driver/motor.cpp:126-205 | once pins and direction agree they agree in every run |
| MotorDriver.BrakeBrakesIff | firmware/motor_driver/motor.cpp:59-61 | a brake command makes the bridge brake exactly if the motor was driven or braked before; after a reset it is neither |
| MotorDriver.Motor.SetDirection | firmware/motor_driver/motor.cpp:160-205 | the table search, and the restart of the fixed phase if the direction changes |
| MotorDriver.Motor.Regulate | firmware/motor_driver/controller.cpp:19-36 | power, remembered error and cleared count; nothing is cleared while stopped but the error |
| MotorDriver.Driver.Execute | firmware/motor_driver/main.cpp:47-64 | which motor a message changes and how; BRAKE stops both |

## Left out

- USB, UDP, shared memory and JSON plumbing, logging, configuration, time stamps: libraries; transfers are assumed to succeed, otherwise the memory of the last message is already ahead of the robot.
- Camera server, painters, LCD driver, menu, LEDs, the Java client and the bootloader: user interface and vendored code.
- The LCD register is the last text commanded; local menus and time-outs also write the display.
- Local release of the kill switch from the bridge's menu: only a host command releases the line here.
- Re-entrancy of the bridge's `delay::waitMs` into `usb::poll`: the host is assumed to wait for each reply.
- BridgeFirmware.Buffer.Push: requires room in the buffer, which the C++ code does not check; what the firmware does after leaving a buffer is not modelled, only that it leaves it (`Crashed`). No packet of the server makes it do so.
- Pipeline, motor driver and arm driver run by themselves; `EndToEnd` joins them at the moment a command goes out, with the drivers in any state. The I2C bus between bridge and arm driver is not modelled.
- Averaging of voltage and current: the last raw reading is kept.
- Joint and motor objects are values inside the one `Interface` object, so aliasing between them is not modelled.
- The poll counter, request ids and serials are unbounded integers instead of `long`.
- The calibration routine is a step machine on values instead of a method, because commands and ticks come between its steps; its durations are arbitrary and its watchdog resets are left out.
- ArmJoints.ArmDriver.BrakeAll: leaves out the stores of speed 0; speeds and PWM registers of the arm driver are not modelled, because calibration sets the elbow's from an entry that is never initialised.
- ArmJoints.ArmDriver.ProcessCommand: leaves out the value of SET_SPEED for the same reason, and the bytes that answer getters.
- Wrist code of the arm driver (compiled out) and its own I2C slave.
- `setDirection` of the arm is one step: an interrupt between its stores to table and pins is not modelled.
- The joint table survives a reset; its counts are assumed to be in range then.
- The queue's heap is a set with the open choice among equal serials. The lock makes `addRequest` one step: it reads the last serial or writes it, never both.
- Execution of a request by the processors, and the response sender: the executor is free again after it has assigned the serial.
- Commands of the motor driver are one step in runs; timer interrupts between the stores of `setSpeed` are modelled apart, those between the stores of `setDirection` are not.
- MotorDriver.Motor.Regulate: signed overflow, undefined in C++, is taken to wrap.
