# rtpengine media state, in Dafny

A model of the media state that rtpengine's daemon keeps across threads, timers and control commands,
with the properties that have to hold in every run. One module per component:

| module | component |
|---|---|
| `AsyncJobs` | hand-off of transcoding jobs from packet threads to worker threads |
| `OutputSequence`, `DelayBuffer`, `DelayedOutput` | RTP output numbering, the delay buffer, and numbering through the delay buffer |
| `SendScheduler` | send times from wrapping timestamps, with drift correction |
| `LossTracker`, `SilenceDetector` | the 32-bit loss window and the silence-run detector |
| `CodecStore` | preference list, payload type table and name index of a media |
| `Subscriptions`, `SubscriberWalk` | the mirrored subscription graph and the walk that rebuilds sink lists |
| `TagDeletion` | cascading and scheduled deletion of call branches |
| `Keystream`, `SrtpCiphers` | AES counter mode, its users, and f8 mode (RFC 3711) |
| `CookieCache` | the two-generation duplicate-suppression cache |
| `Words`, `Options` | machine words with explicit wrap-around; optional values |

Each component has the same three layers. A datatype holds its state, and functions on that datatype say
what one call (or, for concurrent code, one critical section) does. Lemmas prove what every step keeps and
what follows for every run. A class holds the same state in mutable fields, and its methods, written with
the loops and branches of the C code, are proved to do exactly what the functions say.

Locks are modelled by making each locked section one step; threads interleave between steps in any order.
Clocks, encoders, block ciphers, timestamps and packet contents are arbitrary inputs. Timers are assumed
only not to fire early, and the clock not to run backwards where a model has one. In the reply cache each
thread reads a clock of its own that may lag.

What the proofs found where the code does not do what one might expect:

- Duplicated DTMF events in the delayed path change the sequence difference at once instead of pegging the
  change to the queued frames. The numbers sent equal those of the direct path exactly when there is one
  copy, or none with nothing pending (`DelayedOutput.DtmfCopiesExact`). The three copies of an end event all
  leave with one number (`DelayedOutput.TripledEndEvent`). Over any run, each packet is off by `copies - 1` for
  every event made while it was queued, and the two paths agree if and only if these sums vanish for all
  packets mod 2^16 (`DelayedOutput.DelayedIsDirectExactly`).
- Over a whole run, frames leave the delay buffer in order of receive time if and only if no frame is ever
  inserted after a newer one has left (`DelayBuffer.LeaveInOrderExactly`, and a run in which they do not,
  `DelayBuffer.LateFrameLeavesOutOfOrder`).
- From a zeroed scheduler the correction for steady clock skew never takes effect
  (`SendScheduler.EverySendIsTimely`).
- A late packet moves the anchor of the send times so that it agrees, if and only if the 32-bit timestamp
  distance from the anchor does not wrap by that (`SendScheduler.LatePacketMovesAnchor`). If it wraps, the
  anchor is left a whole cycle too early (`SendScheduler.WrapLeavesAnchorEarly`).
- Adding a payload type that the codec store already holds always breaks the agreement of its three views
  (`CodecStore.AddKeepsAgreementExactly`, `CodecStore.SamePayloadTypeTwice`).
- Adding a codec in order is meant to append it in front of the supplemental ones. It does, and keeps them
  behind, until a supplemental codec is itself added in order while there is one already
  (`CodecStore.AddSuppBehindExactly`, `CodecStore.NoneInFront`); from then on an ordinary codec can end up
  behind it (`CodecStore.OrdinaryBehindSupplemental`).
- The delay timer is set for exactly the moment the oldest frame is due until an even older frame is inserted
  while it is set (`DelayBuffer.PromptKeptExactly`); it is then still set for one of the queued frames.
- An empty packet is reported silent only within or at the end of a queued run, although it holds no sample
  that is not silent (`SilenceDetector.EmptyPacketExactly`, `SilenceDetector.EmptyPacketIsNotSilent`).
- The comment on `__subscribe_medias_both_ways` says that it returns b's subscriber entry for a. It returns
  a's own subscription instead when that link survives the release or when a and b are the same media
  (`Subscriptions.MediaGraph.SubscribeMediasBothWays`, `Subscriptions.OfferOverPlainLink`). A link that
  survives also keeps its old attributes (`Subscriptions.PlainLinkSurvivesOffer`).
- A media that echoes or blackholes lists its own port once for each subscriber served, so repeated handlers
  occur then, and only then (`SubscriberWalk.RepeatedHandlersExactly`, `SubscriberWalk.EchoListedTwice`).
- The reply cache goes by the clock of whichever thread looks up, and each thread's clock is only set once
  per wake-up. A stored reply is returned if and only if at most one lookup since, by its own clock, swapped
  the generations (`CookieCache.ReplyReturnedExactly`). In time, that is 30 seconds less the largest lag of
  those clocks (`CookieCache.ReplyIsReturned`); with a lag, a reply can be gone after 29
  (`CookieCache.LagShortensLifetime`).

## Model

| member | source | states |
|---|---|---|
| `AsyncJobs.StepInv` | daemon/codec.c:6516-6561 | every critical section of packet threads and workers, sleeping and waking included, keeps the hand-off invariant: one token, head job, live cursors, nothing lost, no signal lost |
| `AsyncJobs.OneToken` | daemon/codec.c:4866-4887 | in every interleaving a handler with jobs has exactly one token, which is its head job, one without jobs has none, and list cursors held across unlocked sections stay valid |
| `AsyncJobs.ArrivedAre` | daemon/codec.c:4866-4879 | in every run the jobs that have arrived are the packets handed over, all of them and in that order |
| `AsyncJobs.NoLostSignal` | daemon/codec.c:6569-6577 | in every interleaving with at least one worker, a queued job finds a worker that is not asleep on the condition variable |
| `AsyncJobs.InOrderAndOnce` | daemon/codec.c:6522-6558 | in every interleaving each handler's jobs are decoded in arrival order and no job is decoded twice |
| `AsyncJobs.DetachLeavesNothing` | daemon/codec.c:6549-6558 | when a worker detaches a list, every job of that handler that has arrived has been decoded |
| `AsyncJobs.StuckMeansDone` | daemon/codec.c:6563-6588 | with a worker present, a state in which no thread can move has decoded every arrived job |
| `AsyncJobs.DrainsCompletely` | daemon/codec.c:6516-6588 | once packets stop arriving and apart from wake-ups without a signal, every schedule is finite, bounded by the work left, and ends with every job decoded exactly once |
| `AsyncJobs.Transcoder.AppendJob` | daemon/codec.c:4866-4879 | one new job, numbered by arrival, at the end of the handler's list; it is announced exactly if the list was empty |
| `AsyncJobs.Transcoder.AnnounceJob` | daemon/codec.c:4880-4884 | the first job, and only it, goes to the end of the workers' queue, and a worker that sleeps is woken |
| `AsyncJobs.Transcoder.TakeJob` | daemon/codec.c:6569-6577 | takes the job at the head of the queue, or falls asleep on an empty queue |
| `AsyncJobs.Transcoder.WakeUp` | daemon/codec.c:6570-6574 | a wait that returns without a signal sends the worker back to the queue |
| `AsyncJobs.Transcoder.EnterList` | daemon/codec.c:6516-6524 | the job handed over is the head of its list, as the commented-out assertion says |
| `AsyncJobs.Transcoder.RunJob` | daemon/codec.c:6526-6534 | decodes the job at the cursor's position of the list, which the cursor still points into |
| `AsyncJobs.Transcoder.NextJob` | daemon/codec.c:6542-6555 | moves on to a job appended in the meantime, or detaches the finished list |
| `OutputSequence.SeqDiffAfter` | daemon/codec.c:4837-4865 | after any run the difference has grown by the packets sent less the inputs consumed, mod 2^16 |
| `OutputSequence.NumberOf` | daemon/codec.c:2465-2468 | the closed form of the number of every packet ever sent; one that bypasses the numbering has its own |
| `OutputSequence.GapsCarryOver` | daemon/codec.c:4679-4694 | between any two packets sent, numbers advance by the packets in between plus the numbers missing from the input, whatever each input yields |
| `OutputSequence.TotalMeaning` | daemon/codec.c:4679-4694 | an input yields one packet per encoder packet and two more per DTMF end event |
| `OutputSequence.EmitMore` | daemon/codec.c:4679-4694 | sending in two goes numbers the packets as sending in one |
| `OutputSequence.SsrcOut.OutputRtp` | daemon/codec.c:2465-2468 | a supplied number is used as it is; otherwise the number is the input number plus the advanced difference |
| `OutputSequence.SsrcOut.PacketEncodedTx` | daemon/codec.c:4642-4695 | exactly one packet, or three for a DTMF end event, numbered input number plus difference onwards; the difference grows by as many |
| `OutputSequence.SsrcOut.RtpDecodeDirect` | daemon/codec.c:4837-4865 | everything the input yields is sent, then one number is taken back: the difference grows by the packets sent less one |
| `OutputSequence.SsrcOut.DtmfForward` | daemon/codec.c:2662-2689 | one packet, under its own number or input number plus difference, and the difference stays |
| `OutputSequence.SsrcOut.PacketDtmf` | daemon/codec.c:2770-2804 | the copies of a generated DTMF event are numbered one after the other, and the difference grows by their number less one |
| `DelayBuffer.InsertPlace` | daemon/codec.c:3269-3271 | where the sorted insert puts a frame: behind newer frames, in front of equally old and older ones |
| `DelayBuffer.StepInv` | daemon/codec.c:3246-3304 | every step keeps the queue newest first, the timer set for no frame before it is due, and every past departure on time |
| `DelayBuffer.OrderKeptExactly` | daemon/codec.c:3299-3302 | a step keeps departures in order of receive time, ties by insertion, if and only if it does not insert a frame older than the last one that left |
| `DelayBuffer.BrokenStays` | daemon/codec.c:3299-3302 | once the order is lost, no later insert, pop or rescheduling restores it |
| `DelayBuffer.TimelyIsNotOvertaken` | daemon/codec.c:3246-3258 | a frame inserted before it is due cannot have been overtaken |
| `DelayBuffer.RunOrderExactly` | daemon/codec.c:3695-3729 | a run that starts in order ends in order, departed and queued frames together, if and only if no frame is inserted after a newer one has left |
| `DelayBuffer.NeverEarlyNeverStuck` | daemon/codec.c:3689-3729 | in every run no frame leaves before receive time plus delay, even with older frames inserted under a set timer, and queued frames never wait without a timer or a running pop |
| `DelayBuffer.TimerIsSetExactly` | daemon/codec.c:3246-3258 | in every run a set timer is set for exactly the due time of a queued frame, never before that of the oldest |
| `DelayBuffer.PromptKeptExactly` | daemon/codec.c:3246-3258 | a step keeps the timer set for the oldest frame if and only if it does not insert an even older one under a set timer |
| `DelayBuffer.LeaveWhenDue` | daemon/codec.c:3246-3258 | in every run without such an insert the timer is set for exactly the moment the oldest frame is due |
| `DelayBuffer.NoneLost` | daemon/codec.c:3260-3304 | in every run each inserted frame is queued or has left, exactly once, with its own time and contents |
| `DelayBuffer.LeaveInOrderExactly` | daemon/codec.c:3689-3729 | over every run that empties the buffer, frames have left in order of receive time, ties in insertion order, if and only if no frame was inserted after a newer one had left |
| `DelayBuffer.LeaveInOrder` | daemon/codec.c:3689-3729 | in particular, they do when every frame is inserted no later than it is due |
| `DelayBuffer.LateFrameLeavesOutOfOrder` | daemon/codec.c:3246-3258 | a run in which a frame inserted too late leaves after a newer one |
| `DelayBuffer.FindPlace` | daemon/codec.c:3269-3271 | the linear search finds the place of the sorted insert |
| `DelayBuffer.Buffer.ScheduleTimer` | daemon/codec.c:3246-3258 | sets the timer for the oldest frame's receive time plus the delay unless it is set already |
| `DelayBuffer.Buffer.AddFrame` | daemon/codec.c:3299-3302 | inserts behind newer frames and in front of the rest, numbered by insertion, and schedules, as one step |
| `DelayBuffer.Buffer.TakeFrame` | daemon/codec.c:3695-3704 | takes the oldest frame, which is due |
| `DelayBuffer.Buffer.ScheduleNext` | daemon/codec.c:3724-3729 | clears the due time and schedules for what is left |
| `DelayedOutput.PegDrains` | daemon/codec.c:3366-3385 | a pegged adjustment takes effect after everything queued when it was made, or at once on an empty queue |
| `DelayedOutput.InputDrains` | daemon/codec.c:3277-3304 | an arrival moves the flushed state exactly as it moves the direct path, also when it decodes to no frame |
| `DelayedOutput.DelayedIsDirect` | daemon/codec.c:3260-3304 | over any run of arrivals, harmless generated events and timer pops with any stateful encoder, the flush gives the numbers, order, difference and encoder state of the direct path |
| `DelayedOutput.NoEventsHarmless` | daemon/codec.c:3260-3304 | a run without generated events meets that condition |
| `DelayedOutput.SentIsPrefix` | daemon/codec.c:3668-3688 | at every moment what has been sent is a prefix of what the direct path sends |
| `DelayedOutput.DirectRunNumbers` | daemon/codec.c:4837-4865 | the direct path with an encoder is the numbering model on the packets that encoder yields |
| `DelayedOutput.DelayedGapsCarryOver` | daemon/codec.c:3366-3385 | so the flushed delayed path carries every input gap over and adds none |
| `DelayedOutput.CopiesDrain` | daemon/codec.c:2783-2802 | queued DTMF copies all leave with one number |
| `DelayedOutput.DtmfFlushed` | daemon/codec.c:2783-2804 | what the flush makes of an event: the queued packets moved by copies - 1, the copies under one number |
| `DelayedOutput.DtmfCopiesExact` | daemon/codec.c:2772-2804 | generated DTMF copies keep the delayed path equal to the direct one if and only if there is one copy, or none and nothing queued will still be sent; otherwise as many packets leave, under other numbers |
| `DelayedOutput.HarmfulEventShows` | daemon/codec.c:2772-2804 | an event that is not harmless leaves wrong numbers for good, whatever harmless operations follow |
| `DelayedOutput.DelayedNumbers` | daemon/codec.c:3366-3385 | over any run with events of any kind, every packet of the flushed delayed path has the direct number plus copies - 1 for each event made while it was queued |
| `DelayedOutput.DelayedIsDirectExactly` | daemon/codec.c:2772-2804 | over any such run the flushed delayed path equals the direct path if and only if those sums vanish mod 2^16 for every packet |
| `DelayedOutput.TripledEndEvent` | daemon/codec.c:2775-2804 | an end event on an empty buffer: numbers 109, 109, 109 instead of 107, 108, 109 |
| `DelayedOutput.DrainMoved` | daemon/codec.c:2799-2804 | changing the difference early moves every number still to be sent by the same amount |
| `DelayedOutput.DelayedStream.BufferDelaySeq` | daemon/codec.c:3366-3385 | pegs to the most recent frame, or applies at once |
| `DelayedOutput.DelayedStream.RtpDecode` | daemon/codec.c:4837-4865 | queues what the input decodes to, then pegs the number taken back |
| `DelayedOutput.DelayedStream.PacketDtmf` | daemon/codec.c:2770-2804 | queues the copies with a number taken back each, and moves the difference at once |
| `DelayedOutput.DelayedStream.FrameProcess` | daemon/codec.c:3668-3688 | processes a frame, then applies its pegged adjustment |
| `DelayedOutput.DelayedStream.Flush` | daemon/codec.c:4143-4149 | releases everything queued, oldest first |
| `SendScheduler.ScheduleBound` | daemon/codec.c:2499-2553 | any packet is scheduled between now and one second from now, and fewer than 25 samples stay pending |
| `SendScheduler.EverySendIsTimely` | daemon/codec.c:2499-2553 | the same for every packet of every run from a zeroed scheduler, for any clock and timestamps; the steady-skew branch never changes a send time |
| `SendScheduler.SendTimeMeaning` | daemon/codec.c:2499-2553 | a packet due within the next second is sent exactly when due and leaves the anchor alone; one late by up to a second is sent now and moves the anchor by its delay in timestamps; any other is sent now and becomes the anchor |
| `SendScheduler.SkewMeaning` | daemon/codec.c:2522-2542 | skew is the least lead of up to 25 samples; only the 25th with more than 50 ms shifts send time and anchor, by 10 ms |
| `SendScheduler.OnTimeRun` | daemon/codec.c:2499-2513 | over a run of packets that are on time the anchor stays and each is sent exactly when due |
| `SendScheduler.PacedByTimestamps` | daemon/codec.c:2499-2507 | two packets of such a run, n timestamps apart, are sent n clock periods apart to within a microsecond, whenever they arrived |
| `SendScheduler.LatePacketMovesAnchor` | daemon/codec.c:2543-2553 | a late packet goes out now; the shifted anchor agrees with that, to within one timestamp unit and a microsecond, if and only if the 32-bit distance plus the shift does not wrap |
| `SendScheduler.WrapLeavesAnchorEarly` | daemon/codec.c:2503-2553 | a packet half a second late after about 25 hours at 48 kHz, which leaves the anchor those 25 hours too early |
| `SendScheduler.ShiftAnchorTs` | daemon/codec.c:2503-2505 | moving the 64-bit anchor back by k moves the 32-bit distance forward by k, mod 2^32 |
| `SendScheduler.CodecScheduler.ScheduleSend` | daemon/codec.c:2491-2553 | a supplied number means now and no state change; otherwise a packet on time is sent exactly when due under an unchanged anchor, and one without a usable anchor now, as the new anchor |
| `SendScheduler.CodecScheduler.CorrectSkew` | daemon/codec.c:2522-2553 | skew accounting and both corrections |
| `LossTracker.StepRefines` | daemon/codec.c:5018-5072 | for a packet at any distance, the bit window and counters after the call stand for the set of numbers seen |
| `LossTracker.RunRefines` | daemon/codec.c:5018-5072 | the same over any run, with restarts, jumps, duplicates and reordering |
| `LossTracker.SeenMeaning` | daemon/codec.c:5026-5071 | the reference set holds exactly the numbers that packets of the run stand for and that had not left the window when they came |
| `LossTracker.LossIsExact` | daemon/codec.c:5057-5071 | from a restart, with every packet less than 32 ahead or at most 0x101 behind, the loss count grows by exactly the numbers that left the 32-number window without a packet, and bit i says whether last - i came |
| `LossTracker.JumpMeaning` | daemon/codec.c:5052-5056 | a packet 32 to 0x100 ahead counts 32 as lost, refills the window and moves the last number up by the distance |
| `LossTracker.ResetMeaning` | daemon/codec.c:5034-5039 | a packet 0x101 to 0xfefe ahead restarts the tracker at its own number with no loss counted |
| `LossTracker.OldMeaning` | daemon/codec.c:5026-5033 | a repeated packet or one up to 0x101 behind changes nothing but its own bit, if it is less than 32 behind |
| `LossTracker.ExtendSeq` | daemon/codec.c:5041-5047 | the wrap loop extends the number by its 16-bit distance, mod 2^32 |
| `LossTracker.SsrcEntry.constructor` | daemon/ssrc.c:36-44 | starts with every bit set |
| `LossTracker.SsrcEntry.CountLosses` | daemon/codec.c:5057-5065 | shifts n numbers out, counting those never seen |
| `LossTracker.SsrcEntry.Advance` | daemon/codec.c:5026-5066 | moves the window up to a packet that is ahead; the last number stays for an old packet, is the packet's own for one more than 0x100 ahead and moves up by the distance otherwise |
| `LossTracker.SsrcEntry.CalcLost` | daemon/codec.c:5018-5072 | the whole call is the step function of the refinement; 32 to 0x100 ahead counts 32 lost, beyond that the tracker restarts at the packet |
| `SilenceDetector.SeeAllMeaning` | daemon/codec.c:4268-4276 | the reference history holds exactly the positions whose samples are between -threshold and threshold |
| `SilenceDetector.RunMeaning` | daemon/codec.c:4268-4276 | the same over every run, for the samples of all its frames |
| `SilenceDetector.ScanIsDetect` | daemon/codec.c:4259-4286 | the pointer-based scan of a frame is the detection function, except that an open run could be closed at position 0 |
| `SilenceDetector.DetectInv` | daemon/codec.c:4259-4286 | detection over a contiguous frame keeps the queue equal to the maximal silent runs not yet consumed |
| `SilenceDetector.ScanInv` | daemon/codec.c:4259-4286 | the scan keeps the queue exact over a contiguous frame |
| `SilenceDetector.QueryExact` | daemon/codec.c:4316-4344 | a query answers yes exactly when every sample of the packet is silent, and the queue stays exact for later packets |
| `SilenceDetector.EveryAnswerIsExact` | daemon/codec.c:4316-4344 | after every run of frames and non-overlapping packets that do not run ahead of detection, a query answers yes exactly when every sample of the packet is between -threshold and threshold |
| `SilenceDetector.EmptyPacketIsNotSilent` | daemon/codec.c:4321-4322 | an empty packet that is answered with no |
| `SilenceDetector.EmptyPacketExactly` | daemon/codec.c:4316-4344 | an empty packet is answered with yes if and only if it lies within or at the end of a queued run |
| `SilenceDetector.SilenceEvents.SilenceDetect` | daemon/codec.c:4259-4286 | the loop computes the scan, for any frame and any queue |
| `SilenceDetector.SilenceEvents.IsSilenceEvent` | daemon/codec.c:4316-4344 | the loop computes answer and remaining queue of the query function |
| `CodecStore.DeleteInv` | daemon/codec.c:81-95 | deleting an entry keeps list, table, name index and supplemental link in agreement |
| `CodecStore.AddInv` | daemon/codec.c:5586-5610 | adding an unused payload type anywhere keeps them in agreement |
| `CodecStore.AddKeepsAgreementExactly` | daemon/codec.c:5586-5610 | adding keeps them in agreement if and only if the payload type is not in use |
| `CodecStore.SamePayloadTypeTwice` | daemon/codec.c:5586-5610 | a store with one payload type, added again: two entries with one number |
| `CodecStore.DeleteSuppBehind` | daemon/codec.c:90-91 | if no supplemental codec is in front of the mark, deleting any entry keeps it so |
| `CodecStore.AddSuppBehindExactly` | daemon/codec.c:5600-5609 | adding at the end keeps it so, and adding at the mark does if and only if the codec is not a supplemental one |
| `CodecStore.NoneInFront` | daemon/codec.c:5613-5616 | then adding in order puts a codec in front of every supplemental one |
| `CodecStore.OrdinaryBehindSupplemental` | daemon/codec.c:5613-5616 | two supplemental codecs and an ordinary one, added in order: it is put behind one of them |
| `CodecStore.AddNamesSpec` | daemon/codec.c:5262-5269 | a payload type is entered under its three names and nothing else changes |
| `CodecStore.DropNamesSpec` | daemon/codec.c:74-79 | a payload type is dropped from its three names and nothing else changes |
| `CodecStore.DeleteByNumber` | daemon/codec.c:5766-5769 | what a deletion leaves is the list without that payload type, in order |
| `CodecStore.MergeRound` | daemon/codec.c:5759-5773 | one round of the merge on the lists |
| `CodecStore.Merge` | daemon/codec.c:5759-5776 | merging yields the source list, each entry marked as removed, followed by the non-colliding destination entries in order, and empties the source |
| `CodecStore.MergeOne` | daemon/codec.c:5761-5773 | one source entry replaces a colliding destination entry at the head |
| `CodecStore.RemoveCollision` | daemon/codec.c:5766-5769 | the colliding entry, and only it, is gone |
| `CodecStore.CodecStore.constructor` | daemon/codec.c:5519-5529 | an empty store is in agreement |
| `CodecStore.CodecStore.QueueDel` | daemon/codec.c:74-79 | all occurrences leave the named queue |
| `CodecStore.CodecStore.DeleteNode` | daemon/codec.c:81-95 | deletes the entry, keeps agreement, returns the node that followed and moves the supplemental mark to it if it was on the entry |
| `CodecStore.CodecStore.AddRawLink` | daemon/codec.c:5586-5610 | inserts in front of the given node or at the end, under all three names, and marks the first supplemental codec; agreement is kept if and only if the payload type was unused |
| `CodecStore.CodecStore.AddRawOrder` | daemon/codec.c:5612-5616 | appends in front of the supplemental mark; if no supplemental codec was in front of that, none is in front of the new one, and this stays so exactly if the new one is ordinary or the first supplemental one |
| `CodecStore.CodecStore.StripName` | daemon/codec.c:5894-5919 | stripping a name terminates, removes exactly the codecs that have it as any of their three names and keeps the order of the rest |
| `Subscriptions.Mirrored` | daemon/call.c:4271-4321 | A subscribes to B exactly when B lists A, self-subscription included, and the two objects are mutual reverses |
| `Subscriptions.AlwaysMirrored` | daemon/call.c:4104-4214 | the same after every run of operations, with at most one link per pair and both hash tables holding exactly the queue entries keyed by media |
| `Subscriptions.LinkInv` | daemon/call.c:4271-4321 | a new link keeps the graph invariant |
| `Subscriptions.LinkMeaning` | daemon/call.c:4300-4316 | both entries of a new link point at each other and carry the given attributes, at the head of their queues for offer/answer and at the tail otherwise |
| `Subscriptions.RestrictInv` | daemon/call.c:4104-4127 | taking out whole links keeps it |
| `Subscriptions.SurvivorsConcat` | daemon/call.c:4104-4127 | removal keeps the order of the entries that stay |
| `Subscriptions.RemoveLinkIsRestrict` | daemon/call.c:4104-4127 | touching two queues and two tables takes the link out of the whole graph |
| `Subscriptions.UnsubscribeInv` | daemon/call.c:4151-4171 | unsubscribing keeps the invariant and changes nothing without a subscription |
| `Subscriptions.ReleaseOne` | daemon/call.c:4176-4188 | one round of the release loop removes both directions between the media and one more peer |
| `Subscriptions.RestOfQueueLive` | daemon/call.c:4176-4188 | no removal of the loop frees an entry still ahead of it |
| `Subscriptions.UnsubscribeAtLinks` | daemon/call.c:4190-4202 | unsubscribing a media from all, or all from it, removes exactly the links at that end |
| `Subscriptions.UnsubscribeAtInv` | daemon/call.c:4190-4202 | and keeps the invariant |
| `Subscriptions.RestOfLoopLive` | daemon/call.c:4190-4202 | no removal of those loops frees an entry still ahead |
| `Subscriptions.ReleaseBoth` | daemon/call.c:4348-4353 | releasing a, then b, removes what releasing both at once would |
| `Subscriptions.BothWaysLinks` | daemon/call.c:4327-4358 | exactly which links exist afterwards, for every pair of medias |
| `Subscriptions.BothWaysAttrs` | daemon/call.c:4329-4346 | exactly which attributes every link has afterwards |
| `Subscriptions.EndsAlwaysAgree` | daemon/call.c:4300-4301 | after every run of operations the two ends of every link carry the same attributes |
| `Subscriptions.PeersAre` | daemon/call.c:4172-4188 | then the offer/answer subscribers of a media are those whose own subscription is an offer/answer one |
| `Subscriptions.ConnectMakesPeers` | daemon/call.c:4341-4358 | after every run, each link made by subscribing a and b both ways makes its subscriber an offer/answer one of the other |
| `Subscriptions.ConnectReleases` | daemon/call.c:4348-4353 | b is cut off from its other offer/answer subscribers, a too in an answer, while in an offer a keeps every other link |
| `Subscriptions.ReleaseListIs` | daemon/call.c:4172-4188 | the medias reported as released are exactly the offer/answer subscribers |
| `Subscriptions.PlainLinkSurvivesOffer` | daemon/call.c:4326-4358 | a plain subscription survives an offer and stays without the offer/answer mark |
| `Subscriptions.MediaGraph.AddMediaSubscription` | daemon/call.c:4271-4321 | returns an existing subscription unchanged, or the new subscriber entry: it and its reverse carry the given attributes or none, each at the head of its queue for offer/answer and at the tail otherwise |
| `Subscriptions.MediaGraph.RemoveSubLink` | daemon/call.c:4104-4127 | removes exactly the two objects of the link |
| `Subscriptions.MediaGraph.UnsubscribeMedia` | daemon/call.c:4151-4171 | true exactly if there was a subscription, which is then gone in both directions of the pair |
| `Subscriptions.MediaGraph.UnsubscribeFromAll` | daemon/call.c:4190-4195 | removes all subscriptions of the media |
| `Subscriptions.MediaGraph.UnsubscribeAllFrom` | daemon/call.c:4197-4202 | removes all subscribers of the media |
| `Subscriptions.MediaGraph.UnsubscribeAllOfferAnswer` | daemon/call.c:4172-4188 | removes all links, both ways, with offer/answer subscribers, and lists those in queue order |
| `Subscriptions.MediaGraph.CopyAttrs` | daemon/call.c:4329-4346 | offer/answer set, egress and RTCP-only cleared, and the other flags of the old subscription or none |
| `Subscriptions.MediaGraph.ReleaseOfferAnswer` | daemon/call.c:4348-4353 | releases b, and a as well in an answer, and lists the released medias |
| `Subscriptions.MediaGraph.SubscribeMediasBothWays` | daemon/call.c:4322-4358 | both are subscribed afterwards; when exactly the returned object is b's subscriber entry |
| `Subscriptions.OfferOverPlainLink` | daemon/call.c:4322-4358 | a call whose result is a's own subscription and not b's subscriber entry |
| `SubscriberWalk.HandlersInOrder` | daemon/call.c:1352-1433 | handlers come from exactly the subscribers that get one, each once, in queue order |
| `SubscriberWalk.HandlersMeaning` | daemon/call.c:1370-1425 | a sink is listed exactly if the flags give it to some subscriber: mirrored for egress, RTP if the subscriber's media sends, RTCP on the RTP port if it multiplexes, both to the media itself if it echoes or discards |
| `SubscriberWalk.RepeatedHandlersExactly` | daemon/call.c:1375-1425 | no target is listed twice, if and only if the media does not reflect or serves at most one subscriber |
| `SubscriberWalk.EchoListedTwice` | daemon/call.c:1375-1380 | an echoing media with two subscribers, listed twice |
| `SubscriberWalk.LinkedIsSubscribed` | daemon/call.c:2689-2698 | on a valid subscription graph the walk's links are the subscriptions in either direction, and symmetric |
| `SubscriberWalk.ConnectedBothWays` | daemon/call.c:2689-2698 | so connectedness is symmetric |
| `SubscriberWalk.WalkedJoin` | daemon/call.c:2689-2698 | a nested walk continues the one it was called from: nothing is visited twice, finished medias stay finished |
| `SubscriberWalk.WalkedIsReach` | daemon/call.c:2666-2698 | whatever the marks were, the medias visited are exactly those reachable over unmarked ones |
| `SubscriberWalk.UpdatedIsComponent` | daemon/call.c:2718-2747 | with a fresh number, exactly the medias connected to the start are visited, each once, and wired to their subscribers; no other media changes |
| `SubscriberWalk.CallState.ResetStreams` | daemon/call.c:1265-1273 | all handler lists of the media are emptied, no others |
| `SubscriberWalk.CallState.StreamsSetSinks` | daemon/call.c:1352-1433 | appends the handlers that the flags call for, pair by pair until either side runs out of streams, and changes nothing else |
| `SubscriberWalk.CallState.UpdateInit` | daemon/call.c:2666-2698 | terminates on any graph; every media visited ends up marked, wired and with all linked medias marked |
| `SubscriberWalk.CallState.UpdateInitSubscribers` | daemon/call.c:2718-2723 | takes the next 32-bit number, which is fresh until the counter wraps, and walks from one media |
| `SubscriberWalk.CallState.UpdateInitMonologue` | daemon/call.c:2726-2736 | the same from all medias of a monologue under one number |
| `TagDeletion.DeleteInv` | daemon/call.c:6082-6115 | a deletion keeps associations symmetric and irreflexive and the sweep time a nonzero lower bound |
| `TagDeletion.DeleteMeaning` | daemon/call.c:6082-6115 | what a deletion does to every branch: pending at now plus delay, or destroyed, exactly for the branch and those associated with it alone; nobody keeps an association with it |
| `TagDeletion.DestroyMeaning` | daemon/call.c:6024-6070 | destroying a branch cancels what is pending for it and cuts it off from all others, which change in nothing else |
| `TagDeletion.AssociateInvExactly` | daemon/call.c:6168-6173 | associating keeps the invariant if and only if the two monologues differ |
| `TagDeletion.TimerDestroysExactlyDue` | daemon/call.c:79-104 | a timer run destroys exactly what is due, whether or not it sweeps, and keeps the sweep time in bound |
| `TagDeletion.SweepTimeIsEarliest` | daemon/call.c:79-104 | nothing happens before the sweep time, and a sweep leaves the earliest deletion still pending as the next one |
| `TagDeletion.StepInv` | daemon/call.c:6024-6115 | every operation keeps the invariant |
| `TagDeletion.DestroyedOnTime` | daemon/call.c:164-166 | over every run, a scheduled branch that is left alone is destroyed exactly when a timer runs at or after its time |
| `TagDeletion.UnscheduledSurvives` | daemon/call.c:79-104 | over every run, a branch with no deletion pending is not destroyed unless it is deleted |
| `TagDeletion.AssociatedSurvives` | daemon/call.c:6168-6173 | associating two branches cancels whatever deletion was pending for either: over every run that follows neither is destroyed unless deleted again |
| `TagDeletion.PartialNext` | daemon/call.c:6104-6112 | one neighbour of the cascade: unlinked, and deleted too if that leaves it alone |
| `TagDeletion.PartialComplete` | daemon/call.c:6082-6115 | after all neighbours, exactly the monologue and those associated only with it are destroyed or scheduled |
| `TagDeletion.DestroyDueSpec` | daemon/call.c:88-101 | destroying while iterating comes to the same as destroying the due ones at once |
| `TagDeletion.EarliestSpec` | daemon/call.c:91-97 | the minimum kept by the loop bounds all later times and is one of them |
| `TagDeletion.CallTags.TagsAssociate` | daemon/call.c:6168-6173 | associates both ways and leaves no deletion pending for either; the invariant holds afterwards if and only if the two differ |
| `TagDeletion.CallTags.MonologueDestroy` | daemon/call.c:6024-6070 | no association with the monologue remains, and its pending deletion is gone |
| `TagDeletion.CallTags.StartDeletion` | daemon/call.c:6087-6100 | schedules and lowers the sweep time, or destroys |
| `TagDeletion.CallTags.MonologueDeleteIter` | daemon/call.c:6082-6115 | the recursive cascade terminates and deletes or schedules exactly the monologue and those associated only with it |
| `TagDeletion.CallTags.TimerDeleteMonologues` | daemon/call.c:79-104 | the sweep loop computes the sweep function |
| `TagDeletion.CallTags.CallTimer` | daemon/call.c:164-166 | the sweep runs when its time has come, and the next sweep time is unset or in the future |
| `Keystream.CtrTwice` | daemon/crypto.c:347-403 | applying counter mode twice with one iv restores the data |
| `Keystream.CounterWraps` | daemon/crypto.c:394-398 | the counter is the one block whose value is iv + k mod 2^128, big-endian |
| `Keystream.IncrementIsPlusOne` | daemon/crypto.c:394-398 | the byte-wise increment adds one to the encoded number, with wrap-around |
| `Keystream.WordXor` | daemon/crypto.c:387-389 | a word-wide exclusive or is one per byte |
| `Keystream.BytesInjective` | daemon/crypto.c:394-398 | distinct numbers have distinct encodings |
| `Keystream.XorWords` | daemon/crypto.c:386-390 | the word path changes 16 bytes and no others, also in place |
| `Keystream.XorBytes` | daemon/crypto.c:376-385 | the byte path does the same for any part of a block |
| `Keystream.IncrementInPlace` | daemon/crypto.c:394-398 | the carry loop computes the increment |
| `Keystream.AesCtr` | daemon/crypto.c:347-403 | for every length, alignment and buffer aliasing, byte i is exclusive-ored with byte i mod 16 of the cipher of the block whose value is iv + i/16 mod 2^128; nothing is written without a cipher |
| `SrtpCiphers.CounterOfPacket` | daemon/crypto.c:516-534 | within 2^16 blocks only the last two bytes of the packet's counter change |
| `SrtpCiphers.PacketIvBytes` | daemon/crypto.c:516-534 | the iv byte by byte: salt, with the SSRC at bytes 4 to 7 and the index at bytes 10 to 13, and two zero bytes |
| `SrtpCiphers.CounterBlocksAreDistinct` | daemon/crypto.c:516-534 | under one salt two counter blocks are equal if and only if SSRC, index and block number are |
| `SrtpCiphers.BlocksUsedAreDistinct` | daemon/crypto.c:516-534 | so the cipher inputs that encryption uses are equal if and only if SSRC, index and block number are |
| `SrtpCiphers.AesCmEncrypt` | daemon/crypto.c:516-534 | packet encryption: byte i is exclusive-ored with byte i mod 16 of the cipher of that iv plus i/16, mod 2^128 |
| `SrtpCiphers.PrfN` | daemon/crypto.c:435-451 | key derivation: byte i is byte i mod 16 of the cipher of x * 2^16 + i/16, mod 2^128 |
| `SrtpCiphers.F8Twice` | daemon/crypto.c:704-761 | applying f8 twice restores the data |
| `SrtpCiphers.F8KeysAre` | daemon/crypto.c:727-757 | the f8 recurrence, written out on bytes, has one solution: the first key block is the cipher of IV', each further one that of IV' with block number and the key block before |
| `SrtpCiphers.F8KeysExist` | daemon/crypto.c:727-757 | and it has one of every length |
| `SrtpCiphers.F8Round` | daemon/crypto.c:727-736 | the next running key block of section 4.1.2.1 of RFC 3711 |
| `SrtpCiphers.AesF8Encrypt` | daemon/crypto.c:704-761 | for every length, byte i is exclusive-ored with byte i mod 16 of key block i/16 of that recurrence, block numbers wrapping at 2^32 |
| `CookieCache.StepInv` | daemon/cookie_cache.c:31-101 | every operation keeps buffers, in-use marks and retention intact |
| `CookieCache.OneWorkerPerCookie` | daemon/cookie_cache.c:53-101 | in every run no two threads work on one cookie, every sleeper waits for a working thread, and all keys and entries live in their own table's buffer |
| `CookieCache.RunAges` | daemon/cookie_cache.c:31-40 | over any run that leaves a cookie alone, its reply ages by one generation for each lookup whose clock reading swaps |
| `CookieCache.ReplyReturnedExactly` | daemon/cookie_cache.c:53-93 | after a reply is stored and until it is replaced or removed, a lookup answers with it if and only if at most one lookup since, this one included, swapped; it never answers with another |
| `CookieCache.ReplyIsReturned` | daemon/cookie_cache.c:53-101 | in every run a lookup less than 30 seconds, less the lag of the threads' clocks, after an insertion returns that reply unless it was removed, and never returns any other |
| `CookieCache.RemovedIsNotReturned` | daemon/cookie_cache.c:94-101 | after a cookie is removed and until a reply is stored for it, no lookup answers with a reply |
| `CookieCache.LagShortensLifetime` | daemon/cookie_cache.c:31-40 | a run in which a lagging clock makes the cache forget a reply after 29 seconds |
| `CookieCache.OneReplyReached` | daemon/cookie_cache.c:53-93 | the state that run starts from is reached from an empty cache |
| `CookieCache.Cache.constructor` | daemon/cookie_cache.c:22-28 | two empty generations with their own buffers |
| `CookieCache.Cache.Swap` | daemon/cookie_cache.c:31-40 | 30 seconds on by the calling thread's clock the current generation becomes the old one and a new one starts; before that nothing changes |
| `CookieCache.Cache.Search` | daemon/cookie_cache.c:60-82 | from the restart label on: a hit exactly if either table holds the cookie, a wait exactly if it is in use otherwise, and else a miss that marks it for the thread |
| `CookieCache.Cache.Find` | daemon/cookie_cache.c:53-82 | a whole lookup, swap included |
| `CookieCache.Cache.InsertReply` | daemon/cookie_cache.c:84-92 | stores the reply, clears the mark and wakes all waiters, whoever calls; from the thread that got the miss it keeps the invariant |
| `CookieCache.Cache.RemoveCookie` | daemon/cookie_cache.c:94-101 | forgets the cookie, clears the mark and wakes all waiters, likewise |

## Left out

- CodecStore.CodecStore.StripName: the branches that strip all codecs or skip excepted ones, and the case folding of names, are not modelled.
- CodecStore.CodecStore.AddRawLink: does not model the codec definition and packet time that are filled in first.
- DelayedOutput.DelayedStream.RtpDecode: raw passthrough frames, DTMF packets that bypass the numbering, and a change of the delay while frames are queued are not modelled in the delayed path.
- AsyncJobs.Transcoder.TakeJob: shutdown is left out.
- Subscriptions.MediaGraph.RemoveSubLink: the variant that keeps the reverse object in a store, and unset hash tables during shutdown, are not modelled.
- Subscriptions.MediaGraph.UnsubscribeFromAll: likewise without a store.
- SubscriberWalk.CallState.StreamsSetSinks: the zero-address flags it also sets are not modelled.
- SubscriberWalk.CallState.UpdateInit: ICE, recording, T.38, player and stream flag set-up at each media are not modelled, only marks and handler lists.
- TagDeletion.CallTags.MonologueDestroy: closing sockets and removing tags from the lookup tables are not modelled.
- SendScheduler.CodecScheduler.ScheduleSend: 64-bit overflow of the microsecond clock is not modelled; timestamps wrap as in the code.
- SrtpCiphers.AesCmEncrypt: the block cipher is an arbitrary function on 16-byte blocks.
- CookieCache.StepInv: runs follow the discipline that cookie_cache_lookup demands of its callers, that only a thread that got a miss stores or discards, once.
- OutputSequence.GapsCarryOver: sequencer resets and the mode that counts its own output numbers are left out; packets that bypass the numbering are counted but not compared.
- TagDeletion.StepInv: runs do not associate a monologue with itself, which the invariant would not survive.
- DelayBuffer.Buffer.AddFrame: the delay is fixed and not zero; with no delay and an empty queue the code takes the direct path instead.
- CodecStore.Merge: requires two different stores; merging a store into itself would use a list node that has just been freed.
- Subscriptions.EndsAlwaysAgree: inject and block operations, which edit the attributes of one end in place, are not among the operations of these runs.
- Merging of calls, which renumbers monologues and does not carry over the sweep time.
- Loss counting across jumps of 32 to 256 is modelled as the code does it, a full window counted and refilled, and not claimed to be exact.
- The DTX buffer, jitter buffer and packet sequencer in front of the decoder.
- AEAD modes, authentication tags and the derivation labels of session keys.
- Floating-point and 16-bit variants of silence detection, which differ in the sample type only.
- Reordering of SDES preferences, ICE, DTLS, bundle and RTCP-mux flag logic: finite case tables.
- Sockets, poller, Redis, MQTT, logging, command parsing and statistics: input and output.
- Memory management: reference counts and frees are not modelled, except that no freed subscription or detached job is used again.
