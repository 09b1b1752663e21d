# VisionFlow, verified: the frame pipeline, its shutdown, and the bytes in the frames

This project models the core of a camera-to-file video service written in C. A camera thread captures
frames into slots of a fixed pool; a stream provider thread counts references to them; a conversion
thread converts them into slots of a second pool; a file thread writes those. Three bounded queues
connect the four threads. A control thread starts the service, stops it from the last unit to the
first, and may start it again. Below the threads lie the classes they share (circular queue, slot
pool, framebuffer, file unit, conversion unit, pipeline), the pixel converters in integer arithmetic
after section 2.5 of Recommendation ITU-R BT.601, and the file format of a frame.

## How it is built

| part | files |
|---|---|
| The service as a transition system, with a program counter per thread | `ServiceModel`, `ServiceInv`, `ServiceSteps`, `ServiceFlow`, `ServiceStop`, `ServiceOrders`, `ServiceTheorems`, `ServiceProgress`, `ServiceStarvation` |
| Protocols for any number of threads | `WaitSpec` (condition variables), `RefSpec` (reference counts) |
| Queue and pool: as values, and as objects that refine them | `BufSpec`; `BufQueues`, `BufPools` |
| Framebuffers, plane layout, serialisation | `Layout`, `Frames`, `FrameIo` |
| Pixels, pictures, converters | `Bt601`, `Pictures`, `FrameBytes`, `ConvLines`, `ConvRows`, `Conversion`, `RoundTrips` |
| Units, pipeline, single-threaded scenario | `FileUnits`, `ConvUnits`, `Pipelines`, `Scenarios`, `ScenarioRunner` |

Each locked section is one atomic step of the transition system: pool and queue locks are never nested.
A condition wait is a move to an asleep state; signals, broadcasts and spurious wakeups end it. Pool
sizes (1 to 16, each pool its own), frame contents, the conversion function, the schedule and the
number of starts and stops are arbitrary. The steps of pool and queue in the transition system, its tests
before a wait included, are the same functions (`BufSpec.Queue`, `BufSpec.Pool`, `WaitSpec.Await`,
`BufSpec.Lowest`) that the methods of the classes `BufQueue` and `BufPool` are proved against.

The single-threaded scenario joins all the classes: a file unit reads a frame (`FrameIo`), the conversion
unit converts it (`Conversion`), a file unit writes it. `ScenarioRunner.RunScenario` sets up pools,
pipeline and units from zeroed memory, runs once per frame and tears everything down. It says exactly
when that succeeds, that the output file is then the conversions of the input files in order, or, split,
that each conversion has an output file of its own, what a failure leaves in the files, and that in every
case no slot keeps memory and no unit or queue stays initialised.

## Where code and documentation disagree

`README.md:300-302` of the service promises that stopping consumers first avoids deadlocks, and
`README.md:336` that the pipeline can be stopped and restarted. A stop itself always returns
(`ServiceStop.StopTakesBoundedSteps`). But when conversion is refused an output slot during a stop it
leaves its loop still holding an input slot, and its first pop after the restart overwrites the only
reference to it; that is exactly how a slot is lost (`ServiceTheorems.LostIffRefused`). So each restart
can lose one slot of the input pool (`ServiceTheorems.OneLossPerRestart`), and a service whose input pool
has n slots can end with all four threads asleep, for ever, after n + 1 starts, whatever the size of
the output pool. `ServiceStarvation.OneStartTooMany` constructs the schedule for all pool sizes,
`ServiceTheorems.NoDeadlock` shows that up to n starts no schedule does it, and
`ServiceStarvation.SafeStarts` states both as an equivalence. Up to n starts frames keep coming, at
least one in a bounded number of steps of the threads, without any demand on the scheduler
(`ServiceProgress`).

## Model

| member | source | states |
|---|---|---|
| ServiceTheorems.SlotsConserved | service/src/units/conversion/vf-conversion-unit.c:182-329 | in every reachable state each input slot is in exactly one of: free, queue 0, queue 1, held by one unit, lost; each output slot likewise and never lost; fewer slots are lost than starts were made |
| ServiceTheorems.LostIffRefused | service/src/units/conversion/vf-conversion-unit.c:223-229 | over every run, restarts included: a slot is lost, or left in conversion's hands outside its loop, if and only if at some earlier step of that run conversion held this very slot and the shut-down output pool had no free slot for it |
| ServiceTheorems.LossTakesLeftSlot | service/src/buffer-mgr/vf-buff-queue.c:222-240 | the only step that loses a slot is conversion's first loop entry after a restart, and it loses exactly the slot left in its hands |
| ServiceTheorems.OneLossPerRestart | service/src/buffer-mgr/vf-buff-queue.c:222-240 | between any two points of any schedule no more slots are lost, or held at a launch and about to be, than conversion was launched times in between |
| ServiceTheorems.PushNeverFails | service/src/buffer-mgr/vf-buff-queue.c:100-111 | wherever a unit is about to push, its queue has room, so the give-back paths behind a failed push are dead in the wired service |
| ServiceTheorems.RefCountsTellTruth | libraries/vf_framebuffer/src/vf-framebuffer.c:592-641 | the count of an input slot is 1 from the provider's ref to conversion's unref and 0 when free, in the camera, in queue 0 or being released |
| ServiceTheorems.ThreadsMatchService | service/src/core/vf-processing-unit.c:254-322 | while up, every unit has exactly one live thread and all shutdown flags are clear; after a stop every thread ever launched has been joined once, also one that left its loop early; a thread starts with all flags clear |
| ServiceTheorems.StopWhenStopped | service/src/core/vf-processing-unit.c:288-322 | stopping a stopped service joins nothing and changes nothing but the two pool flags |
| ServiceTheorems.SleepMeansAllLost | service/src/buffer-mgr/vf-buff-pool.c:193-218 | if all four threads sleep, every input slot has been lost |
| ServiceTheorems.NoDeadlock | service/src/core/vf-service.c:219-282 | with at most as many starts as input slots, no reachable state has all four threads asleep |
| ServiceStarvation.OneStartTooMany | service/src/core/vf-service.c:219-282 | for all pool sizes, some schedule with one start more than there are input slots leaves the running service with all four threads asleep |
| ServiceStarvation.SafeStarts | service/src/core/vf-service.c:219-282 | all threads can be asleep within a given number of starts if and only if that number exceeds the input slots |
| ServiceStarvation.NeverRecovers | service/src/buffer-mgr/vf-buff-queue.c:236-240 | once every input slot is lost, the camera holds a slot in no later state of any schedule, restarts included |
| ServiceTheorems.FramesInOrder | service/src/core/vf-processing-unit.c:174-252 | over any starts and stops, what file-out handled is a prefix of the frames under way; these carry increasing capture numbers, each with the unaltered conversion of what was captured under its number, and leave out only frames lost at a restart, fewer than starts |
| ServiceTheorems.FirstRunExact | service/src/core/vf-processing-unit.c:174-252 | in a first run: handled, then file-out, queue 2, conversion, queue 1, provider, queue 0, camera is exactly the sequence of captures, converted; nothing dropped, doubled, reordered or overwritten |
| ServiceProgress.FramesKeepComing | service/src/core/vf-processing-unit.c:174-252 | under every schedule of the four threads, fair or not, while no start or stop is under way: the steps made are at most the work there was, 25 for each frame file-out handles, and two for each spurious wakeup |
| ServiceProgress.WorkBounded | service/src/core/vf-processing-unit.c:174-252 | that work is at most 808 for all pool sizes |
| ServiceProgress.MoreFrames | service/src/core/vf-service.c:219-251 | from every reachable running state with at most as many starts as input slots the threads can go on, and have handled k more frames after at most 808 + 25 k steps, for every k |
| ServiceProgress.EveryFrameHandled | service/src/core/vf-processing-unit.c:174-252 | every frame under way, wherever it is, is handled in its turn and unaltered by every schedule of the threads of a given length, unless conversion is just about to lose a frame after a restart |
| ServiceFlow.InvKept | service/src/units/conversion/vf-conversion-unit.c:251-329 | every step of every thread keeps order, content and completeness of the frames under way, although one frame is briefly in two places |
| ServiceFlow.CaptureExtendsPath | service/src/units/camera/vf-camera-unit.c:200-241 | a capture overwrites no frame under way and puts its own behind all others |
| ServiceFlow.LossShortensPath | service/src/buffer-mgr/vf-buff-queue.c:236-240 | a loss takes exactly one frame out of the sequence and moves none |
| ServiceSteps.SysInvKept | service/src/core/vf-processing-unit.c:41-80 | every step of every thread keeps ownership, counts, sleepers, lifecycle, tallies and the bound on losses |
| ServiceSteps.OwnedKept | service/src/units/stream-provider/vf-stream-provider-unit.c:155-275 | no step duplicates a slot or makes one vanish |
| ServiceSteps.SleepersKept | service/src/buffer-mgr/vf-buff-pool.c:193-218 | no step leaves a thread asleep although what it waits for is there or its shutdown flag is set |
| ServiceSteps.LifecycleKept | service/src/core/vf-pipeline-mgr.c:194-272 | no step breaks the order of launches, running flags, queue shutdowns and joins |
| ServiceSteps.PushFindsRoom | service/public-inc/vf-buff-queue.h:28 | by the pigeonhole principle on slot ownership a queue of capacity 16 has room for a slot of a pool of at most 16 |
| ServiceStop.StepLowersEffort | service/src/core/vf-pipeline-mgr.c:260-267 | once the pools are shut and file-out is told to stop, every step of any thread lowers a measure, and a spurious wakeup raises it by one |
| ServiceStop.StopNeverStuck | service/src/core/vf-processing-unit.c:305-318 | during a stop the control thread can move, or the thread it joins can and is not asleep |
| ServiceStop.StopTakesBoundedSteps | service/src/core/vf-service.c:253-282 | under every schedule the joins of a stop have returned after at most that measure plus two steps per spurious wakeup |
| ServiceStop.EffortBounded | service/src/core/vf-service.c:253-282 | the measure is at most 824 for all pool sizes |
| ServiceTheorems.StopReturns | service/src/core/vf-service.c:253-282 | from every reachable state inside a stop, a feasible schedule without spurious wakeups ends in the stopped state with all four threads gone and as often joined as launched |
| ServiceOrders.ToldUnitsTakeNoMore | service/src/core/vf-processing-unit.c:41-80 | under every schedule, while a unit's running flag is clear its thread takes at most one more free slot or queued frame if it had passed its loop test and not taken yet, and none otherwise; what is queued stays queued |
| ServiceOrders.LoopTest | service/src/core/vf-processing-unit.c:57-75 | at its loop test a thread goes on exactly if its running flag is set, and otherwise returns, taking nothing |
| ServiceOrders.TakeOrWait | service/src/buffer-mgr/vf-buff-queue.c:236-280 | then it takes one slot or frame if there is one, shut down or not, returns if there is none and the wait was shut down, and sleeps otherwise |
| ServiceOrders.OutputOrWait | service/src/units/conversion/vf-conversion-unit.c:223-229 | conversion's wait for an output slot goes the same way and keeps the input frame |
| ServiceOrders.FreeToChoose | service/src/core/vf-processing-unit.c:41-80 | every schedule is considered: a thread that is not asleep may always go on, a sleeper may always wake, starts and stops may be called whenever none is under way |
| ServiceOrders.StartsAtRest | service/src/core/vf-service.c:34-110 | after initialisation every slot is free and counts no reference, the queues are empty with room for 16, no flag is set and no thread exists |
| ServiceOrders.RefusedPushGivesBack | service/src/units/stream-provider/vf-stream-provider-unit.c:252-268 | in whatever state, a unit that finds its queue full gives its slot back, the provider with its reference, and goes on; conversion keeps its input frame |
| WaitSpec.EventKeeps | service/src/buffer-mgr/vf-buff-queue.c:222-290 | for any number of threads each push, pop, stealing pop, wakeup, broadcast and reset keeps: a sleeper means no shutdown and no more items than woken threads |
| WaitSpec.NoWakeupLost | service/src/buffer-mgr/vf-buff-queue.c:113-117 | the same over every history |
| WaitSpec.LoneSleeper | service/src/buffer-mgr/vf-buff-pool.c:193-218 | a sleeper with nobody on the way to the lock sleeps on an empty queue or pool that was not shut down |
| WaitSpec.ShutdownFreesAll | service/src/buffer-mgr/vf-buff-queue.c:190-220 | after a shutdown nobody goes to sleep, and each woken thread leaves the call when it first gets the lock |
| WaitSpec.ItemsConserved | service/src/buffer-mgr/vf-buff-queue.c:76-301 | over every history of any number of threads: items present plus handed out are those there at first plus accepted, never more than fit, and the flag is that of the last shutdown or reset |
| WaitSpec.WhoGetsTheLock | service/src/buffer-mgr/vf-buff-queue.c:236-280 | a thread that gets the lock leaves with an item if there is one, shut down or not, without one if shut down, and sleeps otherwise |
| WaitSpec.NobodyForgotten | service/src/buffer-mgr/vf-buff-queue.c:113-117 | whoever a push, a shutdown or chance wakes is on the way to the lock; all other sleepers stay asleep |
| WaitSpec.FreeToHappen | service/src/buffer-mgr/vf-buff-queue.c:190-301 | every history is considered: any wakeups, spurious ones, and calls at any time |
| RefSpec.EventKeeps | libraries/vf_framebuffer/src/vf-framebuffer.c:605-641 | each atomic decrement and each completion keeps: count is references left, no thread saw zero, the slot went back only after the thread that saw one finished |
| RefSpec.ReleasedExactlyOnce | libraries/vf_framebuffer/src/vf-framebuffer.c:592-641 | from a count of 0, n refs and then at most n unrefs from any interleaved threads never underflow, and release the slot exactly once, on the n-th unref |
| RefSpec.AllDropped | libraries/vf_framebuffer/src/vf-framebuffer.c:605-641 | any number of references can be dropped one after the other, which leaves a count of 0 and one release |
| RefSpec.OverUnref | libraries/vf_framebuffer/src/vf-framebuffer.c:617-630 | one unref more takes the undo branch and releases a second time |
| BufSpec.FirstInFirstOut | service/src/buffer-mgr/vf-buff-queue.c:76-188 | over any sequence of operations, what came out followed by what is inside is what was there and was accepted, in order, within capacity |
| BufSpec.Lowest | service/src/buffer-mgr/vf-buff-pool.c:144-153 | the slot an acquire hands out is the free one with the least number |
| BufQueues.RingPush | service/src/buffer-mgr/vf-buff-queue.c:113-115 | writing at tail keeps the ring well formed (tail follows from head and count, unused cells null) and appends to its contents |
| BufQueues.RingPop | service/src/buffer-mgr/vf-buff-queue.c:275-278 | clearing head keeps the ring well formed and removes the oldest element |
| BufQueues.BufQueue.Init | service/src/buffer-mgr/vf-buff-queue.c:26-74 | capacities 1 to 16 give an empty queue that is not shut down; others are refused without change |
| BufQueues.OpenedIsEmpty | service/src/buffer-mgr/vf-buff-queue.c:26-74 | a new queue is a well-formed ring with no contents |
| BufQueues.BufQueue.Push | service/src/buffer-mgr/vf-buff-queue.c:76-132 | appends, or reports a null frame, an uninitialised queue or a full one and changes nothing |
| BufQueues.BufQueue.Pop | service/src/buffer-mgr/vf-buff-queue.c:134-188 | hands out the oldest frame, or reports an empty or uninitialised queue |
| BufQueues.BufQueue.PopBlockingPass | service/src/buffer-mgr/vf-buff-queue.c:222-290 | an uninitialised queue is reported; else one pass under the lock: oldest frame if any, else refusal if shut down, else wait |
| BufQueues.BufQueue.Shutdown | service/src/buffer-mgr/vf-buff-queue.c:190-220 | sets the flag and keeps the contents |
| BufQueues.BufQueue.Reset | service/src/buffer-mgr/vf-buff-queue.c:292-301 | clears the flag, of an uninitialised queue too, and keeps the contents |
| BufPools.IndexOf | service/src/buffer-mgr/vf-buff-pool.c:301-320 | the slot number of a frame, or the capacity for a foreign one |
| BufPools.BufPool.Init | service/src/buffer-mgr/vf-buff-pool.c:27-102 | over any memory: exactly if the count, the parameters and every allocation permit, a full pool with memory for each slot, all apart; a refused count changes nothing, and after any other failure no slot holds memory |
| BufPools.BufPool.TakeFirst | service/src/buffer-mgr/vf-buff-pool.c:144-153 | a positive count means the scan finds a slot; it takes the first free one |
| BufPools.BufPool.Acquire | service/src/buffer-mgr/vf-buff-pool.c:104-164 | takes the first free slot or reports an empty or uninitialised pool |
| BufPools.BufPool.AcquireBlockingPass | service/src/buffer-mgr/vf-buff-pool.c:166-240 | an uninitialised pool is reported; else one pass under the lock: first free slot if any, else refusal if shut down, else wait |
| BufPools.BufPool.Release | service/src/buffer-mgr/vf-buff-pool.c:274-341 | frees a slot in use and signals; a repeated release or a foreign frame changes nothing |
| BufPools.BufPool.Deinit | service/src/buffer-mgr/vf-buff-pool.c:354-392 | frees the memory of every slot exactly once, in use or not, and zeroes pool and slots; an uninitialised pool stays as it is |
| BufPools.Unref | libraries/vf_framebuffer/src/vf-framebuffer.c:605-641 | counts down, and gives the slot back when the count was 1 or, undone, 0; what the pool reports is passed on |
| Frames.Framebuffer.InitPlanes | libraries/vf_framebuffer/src/vf-framebuffer.c:144-187 | sets the plane table of the format and the total size, or refuses the format |
| Frames.Framebuffer.Alloc | libraries/vf_framebuffer/src/vf-framebuffer.c:189-239 | zeroed memory of the layout's size, or the exact refusal: bad sizes and formats change nothing, later failures leave no memory |
| Frames.Framebuffer.Free | libraries/vf_framebuffer/src/vf-framebuffer.c:282-304 | frees memory only if owned, and leaves no memory, size, format or plane |
| Layout.AlignIsLeast | libraries/vf_framebuffer/src/vf-framebuffer.c:26 | a stride is the least multiple of 16 that covers the line |
| Layout.AlignMask | libraries/vf_framebuffer/src/vf-framebuffer.c:26 | bit by bit, that rounding is the mask: x + 15 with the lowest four bits cleared |
| Layout.StrideIsLeast | libraries/vf_framebuffer/src/vf-framebuffer.c:52-142 | for every format, size and plane the stride is a multiple of 16 and less than 16 bytes longer than a line |
| Layout.LinesOf | libraries/vf_framebuffer/src/vf-framebuffer.c:52-187 | seven formats have a layout; pixels and bytes of a line and the number of lines of each of the four planes, written out for each |
| Layout.PlanesSound | libraries/vf_framebuffer/src/vf-framebuffer.c:52-142 | for every format and size, plane size is stride times height and a line fits its stride |
| Layout.LineInPlane | libraries/vf_framebuffer/src/vf-framebuffer.c:52-142 | every line lies inside its plane and the plane inside the frame |
| Layout.LinesDisjoint | libraries/vf_framebuffer/src/vf-framebuffer.c:52-142 | no byte belongs to two lines, of one plane or of two |
| Layout.NothingBehind | libraries/vf_framebuffer/src/vf-framebuffer.c:428-434 | for every format and size the planes behind the first empty one are empty too, so the file loops stop too early for none |
| Layout.VisibleIsStored | libraries/vf_framebuffer/src/vf-framebuffer.c:406-454 | the bytes of the lines that go into a file are the bytes of all lines of all planes |
| FrameIo.WriteTo | libraries/vf_framebuffer/src/vf-framebuffer.c:406-454 | writes the visible bytes, line by line and plane by plane, and reports their number; a short write is an error, leaves what fitted, and reports the bytes of the whole lines before the first that did not |
| FrameIo.ReadFrom | libraries/vf_framebuffer/src/vf-framebuffer.c:507-554 | reads them back from the file's position and keeps all padding; fails exactly when the file holds too little, and then has read and reports the whole lines that were there |
| FrameIo.BodyDetermines | libraries/vf_framebuffer/src/vf-framebuffer.c:406-554 | frames of one layout with equal files agree on every visible byte |
| FrameIo.BodyByte | libraries/vf_framebuffer/src/vf-framebuffer.c:406-554 | byte x of line j of plane k stands in the file behind the planes before k and j lines of plane k, without padding |
| FrameIo.WriteThenRead | libraries/vf_framebuffer/src/vf-framebuffer.c:406-554 | reading what was written restores every visible byte of every plane, leaves all others alone, and both report line size times height summed over the planes |
| FileUnits.BitsPerPixel | libraries/vf_framebuffer/src/vf-framebuffer.c:643-660 | a frame's file holds width times height times 1 byte in RAW8, 2 in YUYV, 3 in RGB888 and BGR888, 4 in RGBA8888, and 12 bits in YUV420P and NV12 of even size |
| Bt601.EncodeNeverClips | libraries/vf_conversion/src/vf-conversion.c:44-71 | luma stays in 16..235 and chroma in 16..240 for every pixel, so no clip of the encoder fires |
| Bt601.EncodeRounds | libraries/vf_conversion/src/vf-conversion.c:46-71 | luma and chroma are the weighted sums of the channels in 256ths, rounded, halves up |
| Bt601.DecodeRounds | libraries/vf_conversion/src/vf-conversion.c:44-94 | for all y, u, v, also those no pixel encodes to, each channel is the byte nearest to its weighted sum in 256ths |
| Bt601.ClipNearest | libraries/vf_conversion/src/vf-conversion.c:44 | clipping gives the byte nearest to any integer |
| Bt601.EncodeNearStandard | libraries/vf_conversion/src/vf-conversion.c:46-71 | every encoded sample is less than 1 away from the real-valued definition of section 2.5 of BT.601 |
| Bt601.DecodeNearStandard | libraries/vf_conversion/src/vf-conversion.c:73-94 | for all y, u, v every decoded channel is less than 1 away from the standard's colour, and black or white where that leaves the range |
| Bt601.PixelRoundTrip | libraries/vf_conversion/src/vf-conversion.c:44-94 | encode and decode change red and green by at most 2 and blue by at most 3, for every pixel |
| Bt601.RedBoundSharp | libraries/vf_conversion/src/vf-conversion.c:44-94 | red really changes by 2 in both directions |
| Bt601.GreenBoundSharp | libraries/vf_conversion/src/vf-conversion.c:44-94 | green really changes by 2 in both directions |
| Bt601.BlueBoundSharp | libraries/vf_conversion/src/vf-conversion.c:44-94 | blue really changes by 3 in both directions |
| Bt601.GrayStaysGray | libraries/vf_conversion/src/vf-conversion.c:49-94 | a gray pixel has neutral chroma and comes back gray within 1 |
| Pictures.SampleYuv | libraries/vf_conversion/src/vf-conversion.c:248-268 | in both 4:2:0 layouts the decoder finds a pixel's own luma and the chroma of its block's even-even pixel |
| Pictures.RoundTripAtSamples | libraries/vf_conversion/src/vf-conversion.c:219-502 | every even-sized image returns through YUV420P or NV12 within 2, 2 and 3 at every even-even pixel |
| Pictures.RoundTripOnBlocks | libraries/vf_conversion/src/vf-conversion.c:219-502 | and at every pixel if each 2x2 block has one colour |
| Pictures.GrayRoundTrip | libraries/vf_conversion/src/vf-conversion.c:219-502 | a gray image returns gray at every pixel, within 1 |
| Pictures.RoutesAgree | libraries/vf_conversion/src/vf-conversion.c:339-502 | the routes through NV12 and through YUV420P give the same RGB picture |
| Pictures.SwappedEncodesTheSame | libraries/vf_conversion/src/vf-conversion.c:219-333 | a channel-swapped image read as BGR888 gives the same YUV420P samples as the original read as RGB888 |
| Pictures.SensorStaysGray | libraries/vf_conversion/src/vf-conversion.c:174-213 | a gray sensor frame returns from YUV420P gray at every pixel, each channel what the standard makes of the sensor value as luma |
| FrameBytes.EncodedBytes | libraries/vf_conversion/src/vf-conversion.c:219-448 | at written-out offsets: the luma byte of each pixel encodes its three bytes, in RGB or BGR order, and the U and V bytes, in two planes or as pairs, encode the even-even pixel of its block |
| FrameBytes.DecodedBytes | libraries/vf_conversion/src/vf-conversion.c:339-570 | at written-out offsets of YUV420P, NV12 and YUYV: the three bytes of each pixel decode its luma byte and its block's or pair's U and V bytes |
| FrameBytes.SensorBytes | libraries/vf_conversion/src/vf-conversion.c:132-213 | a sensor byte becomes the three bytes of its pixel in RGB888, or its luma byte in YUV420P |
| RoundTrips.ThereAndBack | libraries/vf_conversion/src/vf-conversion.c:615-687 | on framebuffers, through one conversion context each way: RGB888 returns from YUV420P or NV12 within 2, 2 and 3 at every even-even pixel, everywhere if blocks have one colour, and gray as gray within 1; any other format in between is refused and nothing is written |
| ConvLines.EncodePlanar | libraries/vf_conversion/src/vf-conversion.c:248-268 | the inner loop writes the luma of every pixel and, on even lines, U and V of every other one, and no other byte |
| ConvLines.EncodeInterleaved | libraries/vf_conversion/src/vf-conversion.c:423-443 | the same with U and V in turn in one plane |
| ConvLines.DecodePlanar | libraries/vf_conversion/src/vf-conversion.c:370-386 | the inner loop writes the decoded pixel for each x from the chroma of x / 2, and no other byte |
| ConvLines.DecodeInterleaved | libraries/vf_conversion/src/vf-conversion.c:482-497 | the same from the pair at the even place |
| ConvLines.DecodePacked | libraries/vf_conversion/src/vf-conversion.c:539-565 | the same from four bytes for each two pixels |
| ConvRows.LineKept | libraries/vf_conversion/src/vf-conversion.c:248-268 | writing the lines of one row changes no byte of any other line of any plane |
| ConvRows.EncodedFurther | libraries/vf_conversion/src/vf-conversion.c:248-268 | encoding row y keeps all luma and chroma rows before it, in both layouts |
| Conversion.RgbToPlanar | libraries/vf_conversion/src/vf-conversion.c:219-333 | in bounds, every visible byte of the YUV420P frame has its specified value for RGB888 and for BGR888, padding is kept, and frames that are missing or differ in size are refused unchanged |
| Conversion.RgbToInterleaved | libraries/vf_conversion/src/vf-conversion.c:397-448 | the same for NV12 |
| Conversion.ToRgb | libraries/vf_conversion/src/vf-conversion.c:339-570 | the same for decoding YUV420P, NV12 and YUYV to RGB888 |
| Conversion.GrayToRgb | libraries/vf_conversion/src/vf-conversion.c:132-168 | the same for RAW8 to RGB888: the sensor value three times |
| Conversion.GrayToPlanar | libraries/vf_conversion/src/vf-conversion.c:174-213 | luma copied and its padding kept, both chroma planes 128 to their last padding byte, also for odd sizes |
| Conversion.LookupConvertFn | libraries/vf_conversion/src/vf-conversion.c:595-609 | the table holds an entry exactly for the eight supported pairs of formats, and it is the converter for that pair |
| Conversion.SupportedPairs | libraries/vf_conversion/src/vf-conversion.c:582-591 | the eight pairs of formats, written out |
| Conversion.EveryConverterFound | libraries/vf_conversion/src/vf-conversion.c:582-609 | each of the eight converters is reached by some pair |
| Conversion.IsSupported | libraries/vf_conversion/src/vf-conversion.c:702-705 | true exactly for the eight pairs |
| Conversion.Context.Init | libraries/vf_conversion/src/vf-conversion.c:615-647 | initialised exactly for supported pairs, else left blank with its error |
| Conversion.Context.Process | libraries/vf_conversion/src/vf-conversion.c:649-687 | the errors in the order of the checks; otherwise dst becomes the conversion of src that its formats call for |
| FileUnits.FileUnit.GetDataIn | service/src/units/file/vf-file-unit.c:206-257 | opens the current file in place of the one before, fills the first free slot from it and advances the frame index, or leaves pool and index alone; an uninitialised pool is reported once the file is open |
| FileUnits.FileUnit.RunIn | service/src/units/file/vf-file-unit.c:183-371 | a success moves the filled slot to the queue; every failure, uninitialised pool or queue included, leaves pool and queue as they were; when it would wait |
| FileUnits.FileUnit.SendDataOut | service/src/units/file/vf-file-unit.c:372-446 | reports a missing frame; else the slot goes back whatever becomes of the file; the index advances unless the file could not be opened; the file gains what the disk takes of the frame's visible bytes, and when every frame has a file of its own no other file changes |
| FileUnits.FileUnit.RunOutIdle | service/src/units/file/vf-file-unit.c:183-446 | a sink run over one queued slot never waits and restores pool and queue |
| ConvUnits.ConversionUnit.ProcessData | service/src/units/conversion/vf-conversion-unit.c:195-249 | reports a missing input frame and an uninitialised pool; else takes the first free output slot and converts into it; on any failure gives it back but keeps the input frame; waits or is refused without a slot |
| ConvUnits.ConversionUnit.SendData | service/src/units/conversion/vf-conversion-unit.c:251-329 | reports a missing output frame; else pushes first, then drops the input reference, if there is one, which releases the input slot; a full or uninitialised queue gives the output slot back and keeps the input frame |
| ConvUnits.ConversionUnit.RunIdle | service/src/units/conversion/vf-conversion-unit.c:154-329 | with matching frames and room everywhere a run neither waits nor fails, and the queued output is the conversion of the input |
| Pipelines.Unit.Create | service/src/core/vf-processing-unit.c:82-129 | the error of the init operation is passed on, a missing one is reported; a unit becomes initialised exactly on success, and one that already was stays so |
| Pipelines.Unit.Destroy | service/src/core/vf-processing-unit.c:131-172 | an initialised unit loses its queues; one that is not is left alone |
| Pipelines.FirstErrAt | service/src/core/vf-pipeline-mgr.c:93-137 | the error reported is that of the first failing step |
| Pipelines.FirstErrNone | service/src/core/vf-pipeline-mgr.c:93-137 | no error is reported exactly if no step failed |
| Pipelines.WhichError | service/src/core/vf-pipeline-mgr.c:93-137 | the error reported is the first failing queue's, else that of the first failing unit itself; none exactly if all queues and units succeed |
| Pipelines.Pipeline.AddUnit | service/src/core/vf-pipeline-mgr.c:46-70 | appends a unit, at most eight |
| Pipelines.Pipeline.WireAll | service/src/core/vf-pipeline-mgr.c:93-121 | queue i is new, empty, the output of unit i and the input of unit i + 1, and the outer ends are untouched |
| Pipelines.Pipeline.Create | service/src/core/vf-pipeline-mgr.c:72-157 | for 2 to 8 distinct units and any failing steps: all initialised and wired, or no unit and no queue initialised, with the error of the first queue or else the first unit that failed |
| Pipelines.Pipeline.Destroy | service/src/core/vf-pipeline-mgr.c:274-306 | no unit and no queue stays initialised and no unit stays connected |
| Scenarios.Scenario.RunOnce | service/src/core/vf-pipeline-mgr.c:159-192 | from full pools and empty queues the three units never wait and, whatever fails, end with full pools and empty queues; they succeed exactly if the frame can be read and its conversion written, and advance both indices; the file gains what the disk takes of the conversion of the current frame, and files of earlier frames stay |
| Scenarios.Scenario.RunPipelineForFrames | service/src/core/vf-core.c:171-200 | for any number of frames: in run i both frame indices are i and in range, no run waits, pools and queues are restored, and the whole succeeds exactly if every frame can be read and every conversion written; a single output file then is the conversions of all frames in order, and split output has file i, different from all others, with conversion i; a failure leaves the conversions before the failing frame, and of that frame's what the disk took |
| ScenarioRunner.SetUpPools | service/src/core/vf-core.c:264-285 | both pools with memory for every slot, or an error and no memory kept; exactly when |
| ScenarioRunner.SetUpUnits | service/src/core/vf-core.c:287-410 | exactly if the first input and a single output open, the conversion is supported and no queue fails: a wired pipeline with empty queues; else none initialised |
| ScenarioRunner.RunScenario | service/src/core/vf-core.c:214-442 | from zeroed memory: succeeds exactly if parameters, memory, queues, conversion and all files permit, and then delivers the conversion of every frame, in order in one file or each in a file of its own; a failure leaves those before the failing frame; no run waits; whichever step fails, no slot keeps memory and no unit or queue of the pipeline stays initialised |

## Left out

- V4L2 capture (ioctl, mmap, select), file names, sockets, signals, logging, clocks, statistics: input and output and foreign calls. A capture leaves arbitrary bytes and succeeds, as the camera's acquire step reports (`VF_ERROR_MIN` equals `VF_SUCCESS`); file-out's writes in the transition system end with the slot released either way.
- Failures of pthread primitives and of thread creation: `Pipelines` takes the outcome of every queue init as a parameter; start failures in `vf_pipeline_start`, which stop units without shutting the pools, are not modelled.
- Calling start on a running service, and more than one consumer of the stream provider: the wiring supports neither. Reference counting for n references is proved on the framebuffer alone.
- Conversion errors in the transition system: source and destination slots there have the size and formats of the context, and for such frames `Conversion.Context.Process` with its `Verdict` shows that conversion does not fail.
- Odd sizes: the 4:2:0 and YUYV converters are modelled for even width and height, where the chroma planes hold one sample per 2x2 block. Products of sizes are unbounded integers, so frames whose 32-bit products wrap are not covered.
- Guards against null contexts, pools, queues and unit data: units, pools and queues are parameters that exist. Null frames and frames without memory are modelled, in the conversion unit a missing input and a missing output frame.
- Names of split output files: each frame's file is a new one here; input files whose names differ only in directory or extension would share one output file.
- The units in the pipeline of `ScenarioRunner.SetUpUnits` stand for wiring and lifecycle only: a run goes to the file and conversion unit objects, which work on the queues of that pipeline, and not through the function pointers of `Pipelines.Unit`.
- Pipelines.Pipeline.AddUnit: a unit added twice is appended again by the code; here the units of a pipeline are different ones, without which creating it would initialise one unit twice.
- Pipelines.Pipeline.Create: for units and queues not initialised yet, as `vf_pipeline_init` and the runner leave them; the code has no test for others, and a failure would leave initialised the units it did not come to.
- BufQueues.BufQueue.Shutdown: requires an initialised queue, because the code locks a mutex that an uninitialised one does not have.
- Output without a frame set (numbered file names) and reading without one: the file unit is the scenario's.
- ServiceTheorems.NoDeadlock: stated for at most as many starts as input slots, because beyond that it is false; `ServiceStarvation.SafeStarts` is the exact condition.
- ServiceStarvation.SafeStarts: about states with all four threads asleep. That frames are handled while some thread moves is `ServiceProgress`, for stretches of a run without steps of the control thread; across a stop the frames under way stay where they are.
- BufQueues.BufQueue.Init: the C function zeroes the queue before it can fail in a pthread call; here only the refusal of a capacity can fail.
- BufPools.BufPool.Init: which error a refused allocation reports is left to `Frames.Framebuffer.Alloc`.
- Frames.Framebuffer.Alloc: the MJPEG format is refused by the plane table like an unknown one; wrapping foreign memory, copying and clearing frames are not part of this model.
- ConvUnits.ConversionUnit.GetData: forgets a frame still held; the transition system counts such frames as lost.
- Releasing held slots in the units' deinit operations and the notifiers: `BufPools.BufPool.Deinit` frees every slot's memory wherever the slot was.
- ScenarioRunner.RunScenario: the search for the frame set by name and the frame-ready subscription; the outcomes of the units' init operations are computed before the pipeline asks for them.
- The control server, the client and the JSON configuration parser: text plumbing apart from the pipeline.
