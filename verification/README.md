# Verified model of the TLM co-simulation framework

Independent simulators are coupled by transmission lines. Each end of a line sends
time-stamped waves, the other end sees them one delay later, and a central manager relays
them. This project models that framework in Dafny and proves what it is meant to guarantee.
Doubles are modelled as `real`; sockets are FIFO sequences, and what arrives when is a free
choice.

| file | what it is about |
|---|---|
| `TimeProtocol.dfy`, `TimeProtocolProofs.dfy` | components, interfaces and the relaying manager as one transition system over any graph of connections: delivery, look-ahead safety, freedom from deadlock, completion |
| `TimeProtocolLimits.dfy` | exactly how far the step limits and the end time may be stretched |
| `Plugin.dfy` | the blocking receive loops of a plug-in, and that they are runs of the protocol |
| `Samples.dfy`, `WaveHistory.dfy`, `WaveWindows.dfy`, `WaveInterface.dfy` | searching wave queues from a stale index, sliding windows that answer like full histories, the one-dimensional interface |
| `WaveValues.dfy` | what answers, forces and outgoing waves are worth, said without the formulas that compute them |
| `WaveRuns.dfy`, `WaveBounds.dfy`, `WaveDivision.dfy` | whole runs of one interface: damping never amplifies, and exactly when it divides by zero |
| `ProtocolAnswers.dfy` | in every run of the protocol interfaces answer as their full histories would |
| `WaveEnergy.dfy`, `ProtocolEnergy.dfy`, `Frames.dfy`, `FrameEnergy.dfy` | wave scattering is lossless, over whole runs of the protocol and in any orthogonal frames |
| `CompositeModel.dfy`, `Routing.dfy` | model check, routing table, step limits; re-addressing and monitor copies |
| `ByteOrder.dfy`, `Wire.dfy`, `WireLayout.dfy` | messages between hosts of different byte order, and their layout byte by byte |
| `MessageQueue.dfy`, `MessageQueueSlots.dfy`, `MessageQueueEnding.dfy` | the queue between the manager's threads, under every interleaving, what becomes of its slots, and how it ends |
| `SessionLog.dfy`, `SessionStory.dfy`, `ManagerSession.dfy` | a session of the manager: start-up rounds, the answers to the check requests, relaying and closing, its log told from what arrives, and the order that log keeps |
| `Decimals.dfy`, `Registration.dfy` | registration strings printed and taken apart again |
| `CalcGrammar.dfy`, `CalcText.dfy`, `Calc.dfy` | the command-line calculator: scanner, numerals, recursive-descent parser, meaning of expressions |
| `Timing.dfy` | accumulated times and their truncated average |

Where the code changes state step by step the model is a class or a method with loops, proved
against functions over values; properties of whole runs are then lemmas about those functions.
The time protocol and the message queue are state machines, because what is hard about them
is the interleaving.

## What the proofs found

- A component whose solver claims exact steps is given the whole delay as its step limit.
  That is right for steps of one length; with steps of varying length no run of any model trips
  the guard against asking too far ahead exactly when steps are at most half the smallest delay
  (`TimeProtocolLimits.VariableStepLimit`, `TimeProtocolLimits.EqualStepLimit`).
- A component that has reached the end time sends what is left in its buffer only when the
  interface object is destroyed, which may be after it asked to close. A peer that oversteps the
  end time can therefore wait for ever: exactly when calls may overstep it by more than half the
  smallest delay (`TimeProtocolLimits.OverstepLimit`).
- A request at or before the first sample gets that sample's stamp, so a damped queue can hold
  repeated stamps. A lookup divides by zero for some remembered interval exactly when the time is a
  repeated stamp inside the data, or lies beyond its end where the last two stamps are equal
  (`WaveHistory.NeverDegenerate`); for a given interval, inside the data, exactly when that lies
  before the last repetition (`WaveHistory.DividesExactly`). In a run with damping whose requests
  stay within the data, the interval is the one the undamped lookup has left behind, and the next
  call divides exactly when the damped request is for the first received stamp, answers have been
  stored behind it, and the stored answer behind that interval still carries it
  (`WaveDivision.DampedDivision`). `WaveDivision.DivisionHappens` is such a run: delay 2, start at
  0, samples stamped 1, 2, 3, 4, motions at 1, 2, 2.5, 3, 4, 5, then the force at 6. When the force
  at 5.5 is asked for in between, nothing divides.
- The model check compares causalities only as far as it knows them: a pair with an unknown
  causality can pass (`CompositeModel.CheckedRouting`). It does exactly when the first is unknown
  and the second not bidirectional (`CompositeModel.WhatPasses`), as "signal" with "input"
  (`CompositeModel.UnknownPasses`).
- `Terminate` sets its flag and signals without the queue's lock. The last signal leaves the
  sending thread unable to end by what is already queued exactly when it is between its test and
  its wait (`MessageQueueEnding.LastSignal`; `MessageQueue.SignalCanBeLost` is such a run). A
  message whose slot was admitted before the flag was set may still come and wake the thread;
  without one it sleeps for ever (`MessageQueueEnding.AsleepForGood`).
- `Terminate` throws away what has not been sent, and nothing exactly when the queue is empty
  by then (`MessageQueueEnding.DiscardsNothing`). After a failed start-up the negative answers
  to the check requests, queued just before, can all be lost this way
  (`MessageQueueEnding.AnswersDiscarded`).
- A message from an interface without a connection gets the identity -1 before monitors are
  looked up with it. That lookup stays within the interfaces exactly when the source has a
  connection or monitors have been disconnected (`Routing.Manager.RelayTimeData`). A plug-in never
  causes it, since it keeps only interfaces for which the manager's reply is not -1, and those are
  the connected ones (`CompositeModel.Model.SetupInterfaceConnectionMessage`,
  `Plugin.Plugin.RegisterInterface`); only a client that does not use the plug-in can.
- The average of a timer divides by an unsigned number. It meets its bound exactly when the
  measurements do not add up to less than nothing, or there is only one (`Timing.AverageBound`). Setting the
  clock back while a timer runs breaks it (`Timing.ClockSetBack`).

## Model

| member | source | states |
|---|---|---|
| TimeProtocolProofs.InvStep | common/Interfaces/TLMInterface1D.cc:215-240 | every step of every component and of both manager threads keeps conservation of samples, agreement of the clock fields with the histories, and the distance between last motion and last sending |
| TimeProtocolProofs.Delivery | common/Communication/ManagerCommHandler.cc:515-551 | in every reachable state an interface has received an exact prefix of the samples set at its peer; the rest is in transit, in order, or in the peer's buffer |
| TimeProtocolProofs.CallWithinLookAhead | common/Plugin/PluginImplementer.cc:318-324 | a pending call never lies further than one delay past the last sending |
| TimeProtocolProofs.LookAheadSafety | common/Plugin/PluginImplementer.cc:309-324 | the NOT ALLOWED guard never fires, motion stays within half a delay of the last sending, and an answered request precedes all data or lies within it |
| TimeProtocolProofs.WaitsForEarlierCall | common/Plugin/PluginImplementer.cc:326-350 | with nothing in transit, a waiting component waits for a running one whose pending call is strictly earlier |
| TimeProtocolProofs.DeadlockFree | common/Plugin/PluginImplementer.cc:308-359 | for every graph of positive delays and steps within the limits, every reachable unfinished state has an enabled step |
| TimeProtocolProofs.RunsAreBounded | common/Communication/ManagerCommHandler.cc:587-599 | no run has more steps than the work present at its start |
| TimeProtocolProofs.Completion | common/Plugin/PluginImplementer.cc:308-359 | every run has at most four steps per call, and a run that cannot go on has taken every interface to the end time |
| TimeProtocolLimits.VariableStepLimit | common/CompositeModels/CompositeModel.cc:400-407 | for delays of at least d and steps of any length up to h, no reachable state of any model refuses a request if and only if h is at most half of d |
| TimeProtocolLimits.EqualStepLimit | common/CompositeModels/CompositeModel.cc:400-407 | for delays of at least d and equidistant steps of at most h, no reachable state of any model refuses a request if and only if h is at most d |
| TimeProtocolLimits.RunReaches | common/Interfaces/TLMInterface1D.cc:215-217 | a run of two components in which the samples a peer waits for stay in a send buffer |
| TimeProtocolLimits.OverstepLimit | common/Plugin/PluginImplementer.cc:41-50 | models whose calls overstep the end time by at most o never hang if and only if o is at most half the smallest delay |
| Plugin.Plugin.RegisterInterface | common/Plugin/PluginImplementer.cc:261-280 | an interface object is added with its start clocks under its identity, or left out when the manager reports no connection |
| Plugin.Plugin.Arrive | common/Plugin/PluginImplementer.cc:330-341 | a packet for a registered interface joins the messages to be read |
| Plugin.Plugin.ReceiveOne | common/Plugin/PluginImplementer.cc:330-341 | one message reaches exactly the interface it names |
| Plugin.Plugin.ReceiveUntil | common/Plugin/PluginImplementer.cc:326-350 | the inner loop delivers every message up to one for the interface waited for, and reports a failed receive only when nothing was received |
| Plugin.Plugin.ReceiveTimeData | common/Plugin/PluginImplementer.cc:308-359 | the nested loops leave the same interfaces and the same unread messages as deciding anew before every message |
| Plugin.Plugin.GetForce1D | common/Plugin/PluginImplementer.cc:397-420 | the force is the one the interface gives after receiving what came, also when the request has not been covered |
| Plugin.Plugin.SetMotion1D | common/Plugin/PluginImplementer.cc:589-624 | the interface named offers the reflected sample, or sends it at once when start values are asked for, and no other interface changes; an interface that waits for being taken down is counted, and the last one lets the component exit |
| Plugin.Move | common/Interfaces/TLMInterface1D.cc:164-223 | an interface that has moved is the protocol's one after offering the sample, and sends exactly the protocol's packets; in data request mode everything at once |
| Plugin.LoopIsRun | common/Plugin/PluginImplementer.cc:308-359 | the loop is a run of the time protocol in which only its component receives, ending covered, refused, or able only to wait |
| Plugin.PacketsContinue | common/Interfaces/TLMInterface1D.cc:26-30 | in every reachable state the next packet continues the stamps received before |
| Plugin.MotionConserves | common/Interfaces/TLMInterface1D.cc:214-240 | what motion offers is buffered or sent, once and in order; nothing is sent if and only if less than half a delay has passed and no start values are asked for |
| Plugin.RegisteredStarts | common/Interfaces/TLMInterface.cc:25-55 | an interface just registered is one at the start of the protocol |
| WaveHistory.FindInterval | common/Interfaces/TLMInterface1D.cc:69-79 | both search loops stay in bounds and end where the two searches on values end |
| WaveHistory.DividesExactly | common/Interfaces/TLMInterface1D.cc:65-94 | inside the data a search divides by zero if and only if the interval it starts from lies before the last repetition of the requested stamp |
| WaveHistory.HintedIsLinear | common/Interfaces/TLMInterface1D.cc:65-94 | the search from a remembered interval ends where a linear search ends if and only if it does not divide by zero |
| WaveHistory.FoundIsSelect | common/Interfaces/TLMInterface1D.cc:50-125 | a lookup that does not divide by zero selects the samples that a search of everything selects |
| WaveHistory.HintIndependence | common/Interfaces/TLMInterface1D.cc:69-94 | at a time that is no repeated stamp the interval found is that of a linear search, for every remembered index |
| WaveHistory.NeverDegenerate | common/Interfaces/TLMInterface1D.cc:69-124 | with repeated stamps, no remembered index makes the lookup divide by zero if and only if the time is no repeated stamp inside the data, and beyond its end the last two stamps differ |
| WaveHistory.WindowSound | common/Interfaces/TLMInterface1D.cc:219-222 | dropping old samples neither adds nor removes a division by zero |
| WaveHistory.WindowSelects | common/Interfaces/TLMInterface1D.cc:50-125 | a request behind the first remaining sample selects the same samples as from the full history |
| WaveHistory.DeliveryIndependent | common/Interfaces/TLMInterface1D.cc:50-125 | an answer covered by the data does not change when more data has already arrived |
| WaveHistory.ExactHit | common/Interfaces/TLMInterface1D.cc:257-276 | a request at the stamp of a received sample returns that sample |
| WaveHistory.BeyondNeverDivides | common/Interfaces/TLMInterface1D.cc:69-79 | inside the data a search from the last sample, or from where the queue no longer is, never divides by zero |
| WaveHistory.LeavesInside | common/Interfaces/TLMInterface1D.cc:69-79 | a lookup leaves a sample of the queue behind; outside the data it only replaces an interval beyond the queue, by the last one |
| WaveWindows.CleanKeepsEnough | common/Interfaces/TLMInterface1D.cc:279-283 | cleaning drops only a prefix and keeps two samples older than the time cleaned for |
| WaveWindows.CleanStops | common/Interfaces/TLMInterface1D.cc:279-283 | what remains is an end of the queue of three samples, or of more whose third is still needed, and no more than that was dropped |
| WaveWindows.WindowRefines | common/Interfaces/TLMInterface1D.cc:219-222 | from the time of the window on, the window and the full history determine an answer alike and select the same samples for it |
| WaveWindows.CleanNoLater | common/Interfaces/TLMInterface1D.cc:219-222 | cleaning for any time later than the next request would change the wave answered from some history |
| WaveWindows.AnswerStamp | common/Interfaces/TLMInterface1D.cc:95-108 | a request within the data keeps its stamp, one before it gets the first stamp |
| WaveWindows.RememberOrdered | common/Interfaces/TLMInterface1D.cc:180-183 | stored answers stay ordered by their stamps |
| WaveWindows.WithinDataGrounded | common/Interfaces/TLMInterface1D.cc:36-46 | a request within the data needs nothing that has been cleaned away |
| WaveWindows.StampAdvances | common/Interfaces/TLMInterface1D.cc:180-183 | the next stored answer has a later stamp if and only if it is not clamped to the first sample |
| WaveWindows.UndampedRefines | common/Interfaces/TLMInterface1D.cc:50-125 | the undamped lookup in the window never divides by zero and finds what the full history gives, whatever interval is remembered |
| WaveWindows.AnswerRefines | common/Interfaces/TLMInterface1D.cc:36-46 | two lookups in two windows that share one remembered interval give the answer of the full histories, unless they divide by zero |
| WaveWindows.HoldsMoved | common/Interfaces/TLMInterface1D.cc:164-223 | setting motion keeps in the windows all that later requests need, and appends the reference answer to the stored ones |
| WaveWindows.HoldsAfter | common/Interfaces/TLMInterface1D.cc:164-223 | so does every arrival of data and every call that does not reach back before the last motion |
| WaveWindows.UndampedNeverDivides | common/Interfaces/TLMInterface1D.cc:36-46 | without damping no lookup divides by zero |
| WaveWindows.WindowsStaySmall | common/Interfaces/TLMInterface1D.cc:180-222 | after motion a window of more than three samples has its third at or behind the time it was cleaned for, one delay back for received waves and two and a half for stored answers; without damping nothing is stored |
| WaveValues.InterpolatesOnSegment | common/Interfaces/TLMInterface.h:66-70 | the interpolated value lies on the straight line through the two points |
| WaveValues.AnswerBetween | common/Interfaces/TLMInterface1D.cc:95-124 | between two neighbouring stamps, or beyond the last two, the answer keeps the time asked for, and wave, position and velocity lie on the lines through those two samples; a damped wave comes without motion |
| WaveValues.AnswerAtEdge | common/Interfaces/TLMInterface1D.cc:50-125 | before the data the first sample acts, up to the tolerance behind it the last one, and without data there is no wave and the nominal position |
| WaveValues.StraightAnswer | common/Interfaces/TLMInterface1D.cc:50-125 | if everything received lies on straight lines, wave, position and velocity of every answer do, inside the data and extrapolated beyond it |
| WaveValues.WindowShare | common/Interfaces/TLMInterface1D.cc:36-46 | the wave answered moves from the one received towards the stored one of one and a half delays earlier by the share alpha of their difference; nothing else changes, and without damping nothing does |
| WaveValues.ForceActs | common/Interfaces/TLMInterface1D.cc:129-151 | force and the impedance times the speed make up the wave, in the hydraulic domain their difference does, and before any data the force is the start value |
| WaveValues.OutgoingSends | common/Interfaces/TLMInterface1D.cc:185-207 | the wave sent, with the force at the same end, makes up the impedance times the speed, or their difference does in the hydraulic domain; before any data the same of the start values and their flow |
| WaveValues.SentAndForce | common/Interfaces/TLMInterface1D.cc:185-207 | so with data wave sent plus force is the impedance times the speed, and wave sent minus force in the hydraulic domain |
| WaveValues.StraightWindow | common/Interfaces/TLMInterface1D.cc:36-46 | without damping an interface answers from its windows along straight lines what it has received along them, one delay back |
| WaveValues.StraightForce | common/Interfaces/TLMInterface1D.cc:129-151 | ... and the force is that wave less the impedance times the speed, in the hydraulic domain plus |
| WaveInterface.Interface.constructor | common/Interfaces/TLMInterface.cc:25-55 | last sending at the start time, first data needed one delay later, nothing received or stored, interval zero |
| WaveInterface.Interface.Lookup | common/Interfaces/TLMInterface1D.cc:50-125 | a search from the shared interval finds what the linear reference search finds and leaves its interval behind, wherever it does not divide by zero |
| WaveInterface.Interface.GetTimeData | common/Interfaces/TLMInterface1D.cc:36-46 | the damped answer from the two windows and the shared interval; it is the one the full histories give for every request the windows were kept for |
| WaveInterface.Interface.FindUndamped | common/Interfaces/TLMInterface1D.cc:36-38 | the undamped wave of the window, and the interval handed to the damped lookup |
| WaveInterface.Interface.MixDamped | common/Interfaces/TLMInterface1D.cc:38-45 | the damped wave is mixed in with damping, received data and stored answers, and only then the interval moves again |
| WaveInterface.Interface.GetForce | common/Interfaces/TLMInterface1D.cc:129-151 | the force and the impedance times the speed make up the wave answered, their difference in the hydraulic domain, or it is the initial force; for requests the windows were kept for, the wave of the full histories; only the interval changes |
| WaveInterface.Interface.UnpackTimeData | common/Interfaces/TLMInterface1D.cc:26-30 | received samples are appended and cover requests up to one delay after the newest; nothing else changes |
| WaveInterface.Interface.SetTimeData | common/Interfaces/TLMInterface1D.cc:164-223 | the sample offered carries the motion and the wave that balances the force at this end, or the start values before any data; the answer is remembered, both windows are cleaned, and the send buffer follows the time protocol |
| WaveInterface.Interface.ItemFromHistories | common/Interfaces/TLMInterface1D.cc:175-207 | that wave is the one computed from the full histories for every request the windows were kept for |
| WaveInterface.Interface.ItemOffers | common/Interfaces/TLMInterface1D.cc:185-207 | the sample computed is the one that such a motion offers |
| WaveInterface.Interface.ComputeItem | common/Interfaces/TLMInterface1D.cc:167-207 | the sample to send and the answer stored for damping, from the two windows |
| WaveInterface.Interface.RememberAnswer | common/Interfaces/TLMInterface1D.cc:180-183 | answers are stored only with damping and data |
| WaveInterface.Interface.WaveToSend | common/Interfaces/TLMInterface1D.cc:185-207 | the outgoing wave, with the start values while nothing has been received |
| WaveInterface.Interface.StoreItem | common/Interfaces/TLMInterface1D.cc:214-217 | the sample is buffered, and sent when half a delay has passed or start values are asked for |
| WaveInterface.Interface.CleanQueues | common/Interfaces/TLMInterface1D.cc:219-222 | both windows are cleaned at their own times, and samples only move to those dropped |
| WaveInterface.Interface.SendAllData | common/Interfaces/TLMInterface1D.cc:226-240 | one packet holds the whole buffer in order and the last sending is its newest stamp |
| WaveInterface.Interface.CleanTimeQueue | common/Interfaces/TLMInterface1D.cc:279-283 | the loop drops the prefix that the specification drops |
| WaveBounds.InterpolationWithin | common/Interfaces/TLMInterface.h:66-70 | interpolating between bounded samples stays within the bound |
| WaveBounds.AnswerWithin | common/Interfaces/TLMInterface1D.cc:36-46 | the damped answer is within the bound, because the damped lookup never extrapolates forward |
| WaveBounds.DampingNeverAmplifies | common/Interfaces/TLMInterface1D.cc:176-183 | with damping between zero and one, over any run of data, forces and motions without a division by zero, stored answers and force waves stay within the bound of the received waves |
| WaveDivision.DampedDivision | common/Interfaces/TLMInterface1D.cc:36-94 | in every run a lookup divides by zero if and only if the damped one is for the stamp of the first received sample, answers have been stored behind that stamp, and the search starts before the last answer clamped to it |
| WaveDivision.DivisionHappens | common/Interfaces/TLMInterface1D.cc:36-94 | a run after which the next force divides by zero, for every damping, and does not when another force has been asked for before |
| WaveEnergy.Scattering | common/Plugin/TLMPlugin.cc:90-105 | force times velocity is the drop of the squared wave over four times the impedance, with opposite sign in the hydraulic domain |
| WaveEnergy.Ledger | common/Interfaces/TLMInterface1D.cc:164-223 | power balances of single steps add up to the change of what is in flight |
| WaveEnergy.DelayedSample | common/Interfaces/TLMInterface1D.cc:175-178 | with a delay of n equal steps the answer is the sample the peer set n steps before |
| WaveEnergy.EnergyConservation | common/Interfaces/TLMInterface1D.cc:176-207 | over any window the work at both ends is the change of the energy in flight, whatever had arrived when |
| WaveEnergy.LineIsPassive | common/Interfaces/TLMInterface1D.cc:176-207 | both ends together never take out more than was in flight |
| ProtocolEnergy.SampleHasArrived | common/Plugin/PluginImplementer.cc:308-324 | when motion is set at a step, the peer's sample of n steps before has been received, whatever the schedule |
| ProtocolEnergy.RunProduces | common/Interfaces/TLMInterface1D.cc:164-223 | an end that takes equal steps and asks before it moves produces its samples as the energy balance assumes |
| ProtocolEnergy.ProtocolConservesEnergy | common/Interfaces/TLMInterface1D.cc:176-207 | in every run of the time protocol the work at both ends of such a connection is the change of the energy in flight |
| ProtocolAnswers.ProtocolRuns | common/Plugin/PluginImplementer.cc:308-359 | what a run of the time protocol makes of an interface is a run of that interface: packets continue the stamps, and calls are at most one delay after the last motion and within the data |
| ProtocolAnswers.AnswersAreExact | common/Interfaces/TLMInterface1D.cc:36-46 | in every run of the time protocol each call is answered from the windows as the full histories would answer it, unless it divides by zero, with the exact condition for that |
| ProtocolAnswers.UndampedAnswers | common/Interfaces/TLMInterface1D.cc:36-46 | without damping every call in every run is answered so, unconditionally |
| Frames.TransformRoundTrip | common/Plugin/TLMPlugin.cc:6-42 | to the local frame and back, and the other way round, changes nothing |
| Frames.LengthKept | common/Plugin/TLMPlugin.cc:6-42 | both transformations keep lengths |
| Frames.TransformMV | common/Plugin/TLMPlugin.cc:6-22 | the vector is replaced by the matrix-vector product |
| Frames.TransformVM | common/Plugin/TLMPlugin.cc:26-42 | the vector is replaced by the vector-matrix product |
| Frames.SubtractImpedance | common/Plugin/TLMPlugin.cc:67-71 | the loop fills in all six numbers of force and moment |
| Frames.GetForce3D | common/Plugin/TLMPlugin.cc:47-73 | force and moment are the local wave minus impedance times motion, or stay as they were without data, for any nine numbers as frame |
| Frames.ReactionActs | common/Plugin/TLMPlugin.cc:47-73 | force and moment together with the impedances times the motion are the wave seen in the component's frame |
| Frames.SentAndReaction | common/Interfaces/TLMInterface3D.cc:232-241 | the wave sent, seen in the component's frame, and the reaction together are the impedances times the motion |
| Frames.Scattering3D | common/Interfaces/TLMInterface3D.cc:232-241 | work at a three-dimensional interface is the drop of the energy of the global waves, for every orthogonal frame |
| Frames.EnergyConservation3D | common/Interfaces/TLMInterface3D.cc:232-312 | two components in frames of their own, each reflecting its peer's wave of n steps before, conserve the energy in flight |
| FrameEnergy.ExactHit3D | common/Interfaces/TLMInterface3D.cc:56-153 | a request at the stamp of a received sample returns all six numbers of its wave |
| FrameEnergy.WaveBetween3D | common/Interfaces/TLMInterface3D.cc:56-153 | between two neighbouring stamps each of the six numbers lies on its straight line |
| FrameEnergy.DelayedWave | common/Interfaces/TLMInterface3D.cc:232-241 | with a delay of n equal steps each end reflects the wave its peer sent n steps before |
| FrameEnergy.LineConservesEnergy3D | common/Interfaces/TLMInterface3D.cc:190-312 | two components in frames of their own conserve the energy in flight, from what they look up in the samples received |
| FrameEnergy.RunProduces3D | common/Interfaces/TLMInterface3D.cc:190-265 | in every run of the time protocol a three-dimensional end that takes equal steps has received the samples its requests need |
| FrameEnergy.ProtocolConservesEnergy3D | common/Interfaces/TLMInterface3D.cc:190-312 | in every run of the time protocol two such components conserve the energy in flight, each in a frame of its own |
| Frames.TransformTimeDataToCG | common/Interfaces/TLMInterface3D.cc:273-313 | every buffered sample is replaced by its global form, from which in an orthogonal frame the component sees its own place, velocity and wave again; a sample that answers a wave leaves as the reflection that the energy theorems are about |
| Frames.GlobalLooksLike | common/Interfaces/TLMInterface3D.cc:273-313 | wave, velocity and place of the global sample, seen from the component again, are those of the local one |
| Frames.PlaceKept | common/Interfaces/TLMInterface3D.cc:283-289 | a point fixed to the interface has the same global place before and after the transformation |
| Frames.OrientationKept | common/Interfaces/TLMInterface3D.cc:279-288 | a transformed orientation is an orientation |
| Frames.ProductKept | common/Interfaces/TLMInterface3D.cc:291-301 | products of forces and velocities are the same in both frames |
| CompositeModel.CountingIsEnough | common/CompositeModels/CompositeModel.cc:189-247 | no interface is counted twice if and only if the routing table serves every connection in both directions |
| CompositeModel.CheckedRouting | common/CompositeModels/CompositeModel.cc:222-232 | in a model that passes, linking is an involution without fixpoints, and causalities match if and only if both are known ones |
| CompositeModel.WhatPasses | common/CompositeModels/CompositeModel.cc:222-225 | the pairs of causalities that pass are the matching ones and those of which the first is unknown and the second not bidirectional |
| CompositeModel.UnknownPasses | common/CompositeModels/CompositeModel.cc:183-253 | a model that passes although the causalities of its only connection do not match |
| CompositeModel.SmallestIsLeast | common/CompositeModels/CompositeModel.cc:375-402 | the running minimum is the smallest delay of the component's connections |
| CompositeModel.LimitIsTight | common/CompositeModels/CompositeModel.cc:400-407 | a step is within the limit if and only if it is within every delay, or half of it for inexact solvers |
| CompositeModel.LimitWithoutDelay | common/CompositeModels/CompositeModel.cc:389-407 | without a usable delay the limit is 0.0001, or half of it for inexact solvers |
| CompositeModel.Model.RegisterTLMComponentProxy | common/CompositeModels/CompositeModel.cc:257-265 | components are numbered in order of registration |
| CompositeModel.Model.RegisterTLMInterfaceProxy | common/CompositeModels/CompositeModel.cc:292-316 | a new interface is unconnected and keeps the table right |
| CompositeModel.Model.SetConnection | common/CompositeModels/CompositeModel.cc:85-89 | the proxy points at the connection and at its other end |
| CompositeModel.Model.Connect | common/CompositeModels/CompositeModelReader.cc:388-392 | after attaching both ends all proxies hold what the connections ask for |
| CompositeModel.Model.GetTLMComponentID | common/CompositeModels/CompositeModel.cc:269-276 | the newest component of the name, or -1 when there is none |
| CompositeModel.Model.GetTLMInterfaceID | common/CompositeModels/CompositeModel.cc:333-342 | the newest interface of that component and name, or -1 when there is none |
| CompositeModel.Model.CheckTheModel | common/CompositeModels/CompositeModel.cc:183-253 | passes if and only if no interface has several connections and no causality pair is rejected |
| CompositeModel.Model.StepLimit | common/CompositeModels/CompositeModel.cc:372-407 | the loop computes the limit, including the fallback for missing or non-positive delays |
| CompositeModel.Model.CheckProxyComm | common/CompositeModels/CompositeModel.cc:418-437 | true if and only if all components are connected and ready and all interfaces registered |
| CompositeModel.Model.SetupInterfaceConnectionMessage | common/Communication/ManagerCommHandler.cc:413-425 | the reply to a registration is an identity if and only if the interface has a link |
| CompositeModel.Model.ProtocolReady | common/CompositeModels/CompositeModel.cc:367-416 | a checked model with steps within the limits handed out meets the assumptions of the protocol theorems |
| Routing.Manager.RegisterMonitor | common/Communication/ManagerCommHandler.cc:948-950 | the multimap holds every registration, by interface and in order |
| Routing.EveryMonitorServed | common/Communication/ManagerCommHandler.cc:772-823 | each registration of a monitor brings it exactly one copy, with the identity it watches |
| Routing.Manager.MarshalMessage | common/Communication/ManagerCommHandler.cc:602-635 | a message goes to the linked interface and its component's socket, or loses its address |
| Routing.Manager.CopyRange | common/Communication/ManagerCommHandler.cc:789-820 | one copy for each entry of the range, in order |
| Routing.Manager.ForwardToMonitor | common/Communication/ManagerCommHandler.cc:772-823 | exactly one copy for each monitor of the linked interface, with that interface's identity; the lookup is in bounds if and only if monitors are disconnected or the message is addressed |
| Routing.Manager.RelayTimeData | common/Communication/ManagerCommHandler.cc:531-539 | in a checked model each monitor of the source gets one copy carrying the source, and the peer gets the message; the lookup is in bounds if and only if monitors are disconnected or the source is connected |
| ByteOrder.SwappedTwice | common/Communication/TLMCommUtil.h:161-173 | swapping twice changes nothing, for every item size and count |
| ByteOrder.SwappedAt | common/Communication/TLMCommUtil.h:161-173 | each byte of an item goes to the mirrored place within that item |
| ByteOrder.SwapItem | common/Communication/TLMCommUtil.h:165-170 | the inner loop mirrors one item and touches nothing else |
| ByteOrder.ByteSwap | common/Communication/TLMCommUtil.h:161-173 | each item of the buffer is reversed in place, the rest is unchanged |
| Wire.ValueOfWord | common/Communication/TLMCommUtil.h:91-98 | an integer written by a host is read back by a host of the same byte order, negative ones included |
| Wire.SendThenReceive | common/Communication/TLMCommUtil.cc:29-197 | any host reads size, identity, data and parameter bytes that any other host sent, and leaves later messages untouched |
| Wire.SwappedPacked | common/Communication/TLMClientComm.cc:149-154 | swapping packed samples double by double gives them in the other byte order |
| Wire.RelayIsNeutral | common/Communication/TLMClientComm.cc:88-162 | for all byte orders of sender, manager and receiver the receiver unpacks the original samples, their size and the new identity |
| WireLayout.WordBytes | common/Communication/TLMCommUtil.h:91-98 | the four bytes of an integer are its two's complement, most significant byte first or last |
| WireLayout.HeaderSent | common/Communication/TLMCommUtil.h:64-97 | the bytes of a time-data message: signature, kind, byte order mark, padding, then size, interface and parameter in the byte order of the sender, and the samples |
| WireLayout.SampleSent | common/Communication/TLMClientComm.cc:88-98 | the bytes of every sample: time, position, velocity and wave, each in the byte order of the sender |
| WireLayout.WhatIsTaken | common/Communication/TLMCommUtil.cc:110-197 | what a receiver makes of any bytes whatever: closed, waiting, wrong signature, negative size, or the message cut off at its size |
| WireLayout.ValueIs | common/Communication/TLMCommUtil.h:91-98 | the highest of the four bytes carries the sign |
| Wire.ReceiveAll | common/Communication/TLMCommUtil.cc:110-125 | however the bytes come in pieces, the wanted number is read, or as many as there are |
| Wire.SwapField | common/Communication/TLMCommUtil.cc:156-157 | four bytes of the header are reversed in place |
| Wire.TLMMessage.Adjust | common/Communication/TLMCommUtil.cc:154-158 | size and identity are brought to the host's byte order exactly when the header is from a host of the other one |
| Wire.TLMMessage.ReceiveData | common/Communication/TLMCommUtil.cc:162-185 | the buffer grows only when too small and holds exactly the message's data, unless bytes are missing |
| Wire.SendMessage | common/Communication/TLMCommUtil.cc:29-100 | the bytes sent are header and data in the byte order the header names |
| Wire.ReceiveMessage | common/Communication/TLMCommUtil.cc:110-197 | the message in memory, or the error, or the endless wait, is what the specification reads off the stream |
| Wire.PackTimeDataMessage1D | common/Communication/TLMClientComm.cc:88-98 | header and data of a time-data message in the sender's byte order |
| Wire.UnpackTimeDataMessage1D | common/Communication/TLMClientComm.cc:144-162 | the samples read, swapped when needed, are appended in order |
| MessageQueue.InvStep | common/Communication/TLMMessageQueue.cc:30-106 | every critical section keeps single ownership of slots, order of messages, and that nobody sleeps beside a message |
| MessageQueue.QueueDiscipline | common/Communication/TLMMessageQueue.cc:30-106 | under any interleaving each slot is in one place, nothing is lost or reordered before Terminate clears the queue, and NULL comes only afterwards |
| MessageQueue.SenderProgress | common/Communication/TLMMessageQueue.cc:58-75 | with a message queued or Terminate over, the sender has ended, can move, or sleeps after a last signal given between its test and its wait |
| MessageQueueSlots.NothingGarbled | common/Communication/TLMMessageQueue.cc:44-75 | under any interleaving what was sent, thrown away, sent after that and still queued is exactly what the threads have put, in that order |
| MessageQueueSlots.EndsEmpty | common/Communication/TLMMessageQueue.cc:58-75 | the sending thread ends only with nothing left to send |
| MessageQueueSlots.SlotsStay | common/Communication/TLMMessageQueue.cc:30-81 | until Terminate begins, every slot ever created is free, filled, queued or being sent |
| MessageQueueSlots.CreatesWhenNeeded | common/Communication/TLMMessageQueue.cc:30-41 | a slot is created if and only if none is free |
| MessageQueueSlots.UsedAgain | common/Communication/TLMMessageQueue.cc:30-41 | the slot given back last is used first |
| MessageQueueSlots.NothingAdmittedLater | common/Communication/TLMMessageQueue.cc:44-45 | once the flag is set no slot is admitted any more |
| MessageQueueEnding.LastSignal | common/Communication/TLMMessageQueue.cc:58-106 | without further messages no continuation ends the sender if and only if the last signal comes between its test and its wait |
| MessageQueueEnding.AsleepForGood | common/Communication/TLMMessageQueue.cc:44-106 | no continuation at all ends the sender if and only if, besides, no slot admitted before the flag is still to come |
| MessageQueueEnding.DiscardsNothing | common/Communication/TLMMessageQueue.cc:94-101 | nothing is ever thrown away if and only if the queue is empty when Terminate clears it, that is, everything put has been taken |
| MessageQueueEnding.AnswersDiscarded | common/Communication/ManagerCommHandler.cc:489-503 | for any number of components, a failed start-up can lose every negative answer |
| MessageQueue.SignalCanBeLost | common/Communication/TLMMessageQueue.cc:58-106 | a run in which the sender sleeps after Terminate is over |
| MessageQueue.TLMMessageQueue.GetReadSlot | common/Communication/TLMMessageQueue.cc:30-41 | the top of the free stack, or a new slot |
| MessageQueue.TLMMessageQueue.TestTerminated | common/Communication/TLMMessageQueue.cc:44-45 | outside the lock, the slot is admitted to the queue or leaks when the flag is set |
| MessageQueue.TLMMessageQueue.PutWriteSlot | common/Communication/TLMMessageQueue.cc:44-53 | the message is queued last, and the sender signalled when it was the only one |
| MessageQueue.TLMMessageQueue.GetWriteSlot | common/Communication/TLMMessageQueue.cc:58-75 | waits if and only if the queue is empty and the flag not set, else gives the oldest message, or none and the thread ends |
| MessageQueue.TLMMessageQueue.WaitForSignal | common/Communication/TLMMessageQueue.cc:61-63 | the wait gives the lock back |
| MessageQueue.TLMMessageQueue.ResumeGetWriteSlot | common/Communication/TLMMessageQueue.cc:64-75 | after a signal the oldest message, or none and the thread ends, without another look at the flag |
| MessageQueue.TLMMessageQueue.SetTerminated | common/Communication/TLMMessageQueue.cc:103 | the flag is set outside of any lock |
| MessageQueue.TLMMessageQueue.ReleaseSlot | common/Communication/TLMMessageQueue.cc:77-81 | the slot goes back to the top of the free stack |
| MessageQueue.TLMMessageQueue.DeleteFree | common/Communication/TLMMessageQueue.cc:86-92 | all free slots are deleted |
| MessageQueue.TLMMessageQueue.DeleteUnsent | common/Communication/TLMMessageQueue.cc:95-101 | all queued slots are deleted and their messages discarded |
| ManagerSession.Manager.StartupLoop | common/Communication/ManagerCommHandler.cc:112-205 | while the loop runs there is a socket to select on, and when it ends everybody is connected and ready |
| ManagerSession.Manager.Round | common/Communication/ManagerCommHandler.cc:112-205 | a round keeps the counters exact and rebuilds the active set as the connected components that are not ready, plus the accept socket while registrations remain |
| ManagerSession.Manager.StartupRound | common/Communication/ManagerCommHandler.cc:112-205 | one more round read: flags and log are those of having read it, whatever other sockets had data |
| ManagerSession.Manager.ServeRounds | common/Communication/ManagerCommHandler.cc:112-205 | rounds are read one by one until nobody is missing, and not one more |
| ManagerSession.Manager.ServeComponents | common/Communication/ManagerCommHandler.cc:132-172 | exactly the selected components that ask for the check become ready |
| ManagerSession.Manager.SetReady | common/Communication/ManagerCommHandler.cc:150-157 | a check request makes the component ready and is counted |
| ManagerSession.Manager.Answer | common/Communication/ManagerCommHandler.cc:158-171 | a registration is answered and more messages are expected |
| ManagerSession.Manager.AcceptConnection | common/Communication/ManagerCommHandler.cc:175-200 | a connecting component is answered and awaited |
| ManagerSession.Manager.AnswerChecks | common/Communication/ManagerCommHandler.cc:489-498 | everybody has asked when the answers are given, and everybody gets one |
| ManagerSession.Manager.Relay | common/Communication/ManagerCommHandler.cc:519-545 | time data is queued for its destination, a close request is noted once |
| ManagerSession.Manager.PermitClosing | common/Communication/ManagerCommHandler.cc:557-568 | permission is given to everybody, after everybody has asked |
| ManagerSession.Manager.RelayUntilClosed | common/Communication/ManagerCommHandler.cc:515-551 | every message of a component that has not asked to close is relayed or noted, in order, and relaying ends complete if and only if everybody has asked |
| ManagerSession.Manager.Simulate | common/Communication/ManagerCommHandler.cc:481-568 | the log after start-up: the answers, what the components send if the model was accepted, and the permissions if everybody has asked to close |
| ManagerSession.Manager.RunStartupProtocol | common/Communication/ManagerCommHandler.cc:112-205 | under any arrivals the flags and the log are those of reading the rounds one by one until nobody is missing, and it is complete if and only if every component has connected and, in a later round, asked for the check |
| ManagerSession.Manager.ReaderThreadRun | common/Communication/ManagerCommHandler.cc:481-568 | the log of a whole session is told from what arrives; it starts if and only if everybody has asked for the check, is complete if and only if besides the model was accepted and everybody has asked to close, and keeps the turns of every component and both barriers however far it gets |
| SessionStory.ReadInOrder | common/Communication/ManagerCommHandler.cc:132-172 | a round reads from the later components first |
| SessionStory.ReadFrom | common/Communication/ManagerCommHandler.cc:132-172 | a round reads one message of exactly the components that have connected, have not asked for the check and have data |
| SessionStory.AnswerFollows | common/Communication/ManagerCommHandler.cc:132-200 | behind every connection and registration comes its answer to the same component, behind time data its delivery to the destination |
| SessionStory.DataKept | common/Communication/ManagerCommHandler.cc:519-551 | for every component as much time data is queued as was sent to it |
| SessionStory.KeptAt | common/Communication/ManagerCommHandler.cc:515-551 | a message is handled next, in the order of sending, unless its sender has asked to close before |
| SessionStory.CloserAsked | common/Communication/ManagerCommHandler.cc:540-551 | the components noted as closing are those that have asked to close |
| SessionStory.AnswersInOrder | common/Communication/ManagerCommHandler.cc:489-498 | each component gets one answer to its check request, the last one first |
| SessionStory.PermitsInOrder | common/Communication/ManagerCommHandler.cc:557-568 | components are let go in the order of their first close requests |
| SessionLog.BarrierAt | common/Communication/ManagerCommHandler.cc:483-568 | no check is answered before all have asked for it, and no closing permitted before all have asked for that |
| SessionLog.NextMessageIsAnswer | common/Plugin/PluginImplementer.cc:158-175 | the first message queued for a component after its check request is the answer, so one receive is right |
| SessionLog.AnswerBeforeData | common/Plugin/PluginImplementer.cc:158-175 | no time data is queued for a component before its answer |
| Decimals.AtoiOfDecimal | common/Communication/ManagerCommHandler.cc:296-298 | reading a printed integer gives the integer |
| Decimals.AtoiReads | common/Communication/ManagerCommHandler.cc:296-298 | white space, a sign and digits are read as that number, whatever follows |
| Registration.ScanSpecification | common/Communication/ManagerCommHandler.cc:252-305 | the flag-driven loop parses like the specification, with the defaults for missing parts |
| Registration.InterfaceRoundTrip | common/Communication/TLMClientComm.cc:259-275 | the manager recovers what the client printed if and only if name and causality have no separator and causality and domain are not empty |
| Registration.BareName | common/Communication/ManagerCommHandler.cc:258-262 | a name alone stands for a three-dimensional mechanical interface |
| Registration.FourParts | common/Communication/ManagerCommHandler.cc:252-305 | between three separators stand name, dimensions, causality and domain, with "3D" for six dimensions and the defaults for empty parts |
| Registration.TwoParts | common/Communication/ManagerCommHandler.cc:252-305 | name and dimensions alone get the usual causality and domain |
| Registration.ScanNameAndValue | common/Communication/ManagerCommHandler.cc:361-378 | only the first separator splits |
| Registration.ParameterRoundTrip | common/Communication/TLMClientComm.cc:277-285 | name and value are recovered if and only if the name has no separator |
| CalcGrammar.ParsesPrinted | Calc/calc.c:506-691 | reading a printed expression in a place of any precedence yields its meaning |
| CalcGrammar.ReadsExpr | Calc/calc.c:506-691 | what the parser reads is the printing of some expression, and the value is its meaning |
| CalcGrammar.AcceptsExactlyExpressions | Calc/calc.c:506-691 | tokens have a value if and only if they are an expression, with any parentheses, of that meaning |
| CalcText.NumberOfPointed | Calc/calc.c:319-336 | digits, a point and digits: each digit behind the point counts a tenth of what the same digit before it counts |
| CalcText.ScanHex | Calc/calc.c:337-354 | each hexadecimal digit counts for its place |
| CalcText.ScanNumeral | Calc/calc.c:261-354 | the scanner takes a numeral of any of the three forms off a text and finds its positional value |
| CalcText.DecimalNumeral | Calc/calc.c:292-318 | every natural number is worth what its decimal digits are read as |
| CalcText.ScannerReads | Calc/calc.c:222-395 | the scanner is such a way of reading |
| CalcText.TextReads | Calc/calc.c:222-395 | any way of reading that takes off symbols and numerals reads the tokens of an expression off its text |
| CalcText.EvaluatesToMeaning | Calc/calc.c:506-691 | the text of every variable-free expression evaluates to its meaning, its numbers spelled with digits, with a point, or hexadecimally: sums and products to the left, powers to the right, negation looser than powers, no value if and only if a divisor is zero |
| CalcText.MeaningComputes | Calc/calc.c:506-691 | at every expression the value follows from those of its parts: a difference and its second operand make up the first, a quotient times its divisor is the dividend, remainder and power are of first and second operand in that order, and only a zero divisor leaves no value |
| CalcText.TypedOperation | Calc/calc.c:506-691 | two natural numbers with an operator between them, as typed |
| CalcText.TypedSum | Calc/calc.c:644-668 | typing m+n gives their sum |
| CalcText.TypedDifference | Calc/calc.c:644-668 | typing m-n gives the first less the second |
| CalcText.TypedQuotient | Calc/calc.c:506-545 | typing m/n gives the quotient, and nothing for zero |
| CalcText.DifferencesText | Calc/calc.c:644-668 | a-b-c is the text of (a-b)-c |
| CalcText.ProductFirstText | Calc/calc.c:551-562 | a+b*c is the text of a+(b*c) |
| CalcText.PowersText | Calc/calc.c:569-637 | -a^b^c is the text of -(a^(b^c)) |
| CalcText.BlanksBetween | Calc/calc.c:222-260 | blanks, tabs and the ends of arguments between tokens make no difference |
| CalcText.StrangeCharacter | Calc/calc.c:222-260 | any other character ends the evaluation |
| CalcText.PointShifts | Calc/calc.c:319-336 | digits around a point are worth what they are without it, shifted by the digits behind it |
| CalcText.TypedHexadecimal | Calc/calc.c:337-354 | every natural number is read back from its hexadecimal text |
| Calc.Calculator.Read | Calc/calc.c:222-395 | the scanner loop over the arguments reads the next token of their text |
| Calc.Calculator.Peek | Calc/calc.c:222-240 | the token held back is the next one, and looking at a bad character fails |
| Calc.Calculator.MatchChar | Calc/calc.c:401-413 | a symbol is consumed if and only if it is the next token |
| Calc.Calculator.MatchNum | Calc/calc.c:435-446 | a number is consumed if and only if it is the next token |
| Calc.Calculator.MatchEof | Calc/calc.c:418-429 | true if and only if no token is left, and nothing is consumed |
| Calc.Calculator.ParseExpr | Calc/calc.c:674-691 | computes what the grammar says and leaves the tokens behind it |
| Calc.Calculator.ParseRestExpr | Calc/calc.c:644-668 | sums and differences from left to right |
| Calc.Calculator.ParseTerm | Calc/calc.c:551-562 | a factor and the products behind it |
| Calc.Calculator.ParseRestTerm | Calc/calc.c:506-545 | products, quotients and remainders from left to right, failing on zero divisors |
| Calc.Calculator.ParseFactor | Calc/calc.c:620-637 | negation applies to the factor behind it |
| Calc.Calculator.ParseNumOp | Calc/calc.c:585-618 | numbers and parentheses, with the powers behind them |
| Calc.Calculator.ParseRestNumOp | Calc/calc.c:569-578 | powers from right to left |
| Calc.Calculator.Parse | Calc/calc.c:716-730 | the whole text must be one expression |
| Calc.Calculate | Calc/calc.c:716-730 | an expression given as one argument is evaluated to its meaning |
| Timing.timespecadd | 3rdParty/rtime/rtime.c:34-42 | the exact sum, with nanoseconds up to and including one whole second |
| Timing.timespecdiff | 3rdParty/rtime/rtime.c:44-52 | the exact difference, with normal nanoseconds |
| Timing.QuotientLoss | 3rdParty/rtime/timing.c:85-91 | how much nr times the truncated quotient misses of a total, exactly |
| Timing.QuotientBound | 3rdParty/rtime/timing.c:85-91 | for totals that are not negative the loss is between zero and nr times (nr - 1) nanoseconds |
| Timing.AverageBound | 3rdParty/rtime/timing.c:85-91 | with the unsigned division of the code, the loss is within that bound and the nanoseconds within one second if and only if the total is not negative or nr is one |
| Timing.ClockSetBack | 3rdParty/rtime/timing.c:66-91 | two measurements with a clock set back after which the average misses its bound |
| Timing.Timer.Clear | 3rdParty/rtime/timing.c:51-59 | nothing is measured any more, start and correction stay |
| Timing.Timer.Start | 3rdParty/rtime/timing.c:61-64 | only the start time changes |
| Timing.Timer.Stop | 3rdParty/rtime/timing.c:66-84 | total is the sum of all measurements, min and max are the extremes, last is the newest |
| Timing.Timer.Avg | 3rdParty/rtime/timing.c:86-91 | the average of the measured times is within its bound if and only if they do not add up to less than nothing or there is only one |

## Left out

- Rounding of doubles: all arithmetic is over `real`; the tolerance 1e-10 is kept as a constant.
- Sockets, ports, process start-up, signals and wall-clock timeouts: channels are sequences, and having data is a free choice.
- Dropped sockets, failed sends and fatal-error exits: assumed not to happen; the plug-in model still stops when a receive fails.
- Plugin.Plugin.GetForce1D: a call that divides by zero is not modelled, because the result is no number; the check request before the first call is in the session model.
- Plugin.Plugin.SetMotion1D: the same for motions that divide by zero, from which the code sends and stores what is no number; asking for permission to close is in the session model.
- TimeProtocolProofs.DeadlockFree: assumes that calls overstep the end time by at most half a delay; `TimeProtocolLimits.OverstepLimit` shows that this is exactly what is needed.
- WaveInterface.Interface.SetTimeData: motions that divide by zero, as above; `WaveDivision.DampedDivision` says exactly which they are in a run.
- WaveInterface.Interface.GetTimeData: requests that divide by zero, as above. For requests that the windows were not kept for, it is only said to answer from the windows; `ProtocolAnswers.AnswersAreExact` shows that a run of the protocol makes none.
- WaveBounds.DampingNeverAmplifies: requests stay within the data and at most one and a half delays behind the last motion; beyond either, lookups extrapolate forward.
- ProtocolAnswers.AnswersAreExact: with damping, components ask for the force at each time before they set motion there.
- ProtocolEnergy.ProtocolConservesEnergy: one connection without damping, of which both components take equal steps.
- FrameEnergy.ProtocolConservesEnergy3D: undamped lines of which both components take equal steps; the protocol looks only at the stamps of the samples.
- ManagerSession.Manager.Round: every component is assumed to connect once, and sockets to belong to components for good.
- ManagerSession.Manager.Relay: monitors and the interface request mode are not part of the session model.
- MessageQueue.QueueDiscipline: one sending thread and no spurious wake-ups; the destructor's own waiting is not modelled.
- Wire.ReceiveMessage: a failing socket is not modelled; the parameter identity of the header is never swapped by the code, and so not in the model.
- Calc.Calculator.Parse: variables and assignment are left out, so a letter that starts a token ends the evaluation; command-line use, which ignores what follows an expression, is not modelled; tokens of 25 characters and more, the overflow of integers, the console loop and the error texts are not modelled; `pow` and `fmod` are arbitrary functions.
- Decimals.AtoiOfDecimal: unbounded integers, without the overflow of `atoi`.
- The lower-casing of the first letter of causality and domain on registration: would only add easy members.
- Signal interfaces and the angle interpolation of three-dimensional ones: the search is that of the one-dimensional interface, the trigonometry is not part of this model.
- Zero-delay connections: the protocol argument needs positive delays.
- XML reading, CSV, logging, monitoring threads and the wrappers of foreign solvers: plumbing around the modelled core.
