# The FFmpeg 2.8.1 tools, modelled and proved

The repository bundles the command line tools of FFmpeg 2.8.1; their self-contained logic is
what this project models in Dafny. `dafny verify dfyconfig.toml` checks everything.

| files | what they model |
|---|---|
| FrameQueue.dfy | ffplay's ring of decoded frames, one writer and one reader, as atomic steps |
| PacketQueue.dfy, DecoderProtocol.dfy, DecoderTurns.dfy | ffplay's linked packet queue, the serial protocol by which reader, main and decoder thread survive seeks, and what the decoder loop does with each packet |
| AudioOutput.dfy, SubtitleBlend.dfy, Clocks.dfy | ffplay's audio callback and sample ring, subtitle blending, playback clocks |
| VideoSync.dfy, ForcedKeyframes.dfy, MuxTimestamps.dfy | ffmpeg's frame rate conversion, forced key frames, and timestamp repair before muxing |
| Sections.dfy, JsonWriter.dfy, JsonTrees.dfy, JsonText.dfy, JsonRoundTrip.dfy, JsonTable.dfy | ffprobe's section table and event driven JSON writer, a reader for RFC 8259, and the round trip |
| CompactWriter.dfy | ffprobe's compact and CSV rows, with readers for both escapings |
| CommandLine.dfy | the command line splitter shared by the tools |
| SurfacePool.dfy | the DXVA2 surface pool |

Where the source updates structures in place there is a class with the same fields, and each
method is proved to act on the abstract value as a specification function says; the laws are
proved about those functions, step by step and over whole runs. Threads are interleavings of
atomic steps: a region under a mutex is one step, a wait on a condition is an enabling guard.
Doubles are reals, integers are unbounded, and `lrint` is exact rounding to nearest, ties to
even. Codecs, demuxers and option tables of the libraries are parameters.

## Where code and documentation differ

The model follows the code.

- The section table lists neither packets_and_frames under the root nor frames and subtitles
  under packets_and_frames (ffprobe.c:180, 198-201), but ffprobe opens them there
  (ffprobe.c:2587-2596); `Sections.Child` adds them.
- The manual gives -frame_drop_threshold a default of -1.1 (doc/ffmpeg.texi:1021-1024); the
  code's option starts at 0, which switches it off, beside a fixed bound of -1.1
  (ffmpeg.c:1041-1044).
- A `packets_and_frames` element that displays nothing leaves a comma behind its type member,
  so the output is not JSON (`JsonRoundTrip.RoundTripExactly`, `JsonTable.BareElementIsNotJson`).
- Unlike the external clock, the video clock of ffplay does not go on from where it was
  paused. If the demuxer can pause, it counts the time spent paused. If it answers ENOSYS,
  the clock steps back to its last update (`Clocks.VideoClockAfterPause`,
  `Clocks.VideoClockJumpsUnless`).
- The surface pool prefers surfaces never issued, except that the surface of its very first
  issue, while not issued again, looks never issued (`SurfacePool.NeverIssuedComesFirstUnless`).
- The counters of the frame rate conversion call the first picture of a stream a duplicate and
  a held back one when all its copies count as repeats (`VideoSync.FirstPictureMiscounted`).

## Model

| member | source | states |
|---|---|---|
| FrameQueues.StepKeepsInv | video_message/android/ffmpeg-2.8.1/ffplay.c:695-751 | Every atomic step of writer or reader, in any interleaving, keeps: windex is rindex + size up to the pending half steps, shown <= size <= max_size, live slots filled, all other slots released except the one being published |
| FrameQueues.StepRefinesFifo | video_message/android/ffmpeg-2.8.1/ffplay.c:727-759 | Each atomic step is at most one operation of a sequential FIFO with a "shown" mark: push takes effect at size++, removal at the release of the slot, everything else is invisible |
| FrameQueues.RunIsFifo | video_message/android/ffmpeg-2.8.1/ffplay.c:695-751 | Over every run: frames present + frames pushed = frames released + frames left, in order |
| FrameQueues.PeekReadsNextFrame | video_message/android/ffmpeg-2.8.1/ffplay.c:680-683 | After a successful readiness check the slot peeked at is the oldest undisplayed frame, however far the writer has moved since |
| FrameQueues.DeliveredInOrder | video_message/android/ffmpeg-2.8.1/ffplay.c:711-751 | Over every run that never steps back, the frames looked at by successive calls of next are a prefix of the frames pushed: none lost, repeated or reordered, with and without keep_last |
| FrameQueues.LooksAtPosition | video_message/android/ffmpeg-2.8.1/ffplay.c:711-759 | With steps back as well: the frame the reader looks at is the pushed frame whose number is the calls of next less the steps back from a shown frame |
| FrameQueues.KeptFrameSurvives | video_message/android/ffmpeg-2.8.1/ffplay.c:2333-2346 | The frame kept in slot rindex is untouched by both threads until the next call of next, which is what the audio thread relies on |
| FrameQueues.SlotsDisjoint | video_message/android/ffmpeg-2.8.1/ffplay.c:680-709 | While the writer fills its slot it is none of the slots the reader may peek at, keep or release |
| FrameQueues.WaitsExactly | video_message/android/ffmpeg-2.8.1/ffplay.c:695-725 | Between calls the writer has to wait if and only if all slots are taken, the reader if and only if no frame is left that was not shown |
| FrameQueues.DeadlockExactly | video_message/android/ffmpeg-2.8.1/ffplay.c:695-725 | A run in which both threads wait for each other exists if and only if the ring has one slot and keeps its last frame |
| FrameQueues.FrameQueue.constructor | video_message/android/ffmpeg-2.8.1/ffplay.c:643-658 | An empty ring of min(max_size, 16) released slots |
| FrameQueues.FrameQueue.PeekWritable | video_message/android/ffmpeg-2.8.1/ffplay.c:695-709 | Returns the slot at windex, or nothing after an abort |
| FrameQueues.FrameQueue.PeekReadable | video_message/android/ffmpeg-2.8.1/ffplay.c:711-725 | Returns the frame at (rindex + rindex_shown) % max_size, or nothing after an abort |
| FrameQueues.FrameQueue.WriteSlot | video_message/android/ffmpeg-2.8.1/ffplay.c:2034-2039 | The writer fills the slot it was given |
| FrameQueues.FrameQueue.Push | video_message/android/ffmpeg-2.8.1/ffplay.c:727-735 | On the array: appends the written frame to the FIFO |
| FrameQueues.FrameQueue.Next | video_message/android/ffmpeg-2.8.1/ffplay.c:737-751 | On the array: marks the first frame shown, or removes the oldest frame of the FIFO |
| FrameQueues.FrameQueue.Prev | video_message/android/ffmpeg-2.8.1/ffplay.c:754-759 | Clears the shown mark and returns it |
| FrameQueues.FrameQueue.NbRemaining | video_message/android/ffmpeg-2.8.1/ffplay.c:762-765 | The number of undisplayed frames, never negative |
| PacketQueues.PacketQueue.constructor | video_message/android/ffmpeg-2.8.1/ffplay.c:450-456 | Empty, aborted, serial 0 |
| PacketQueues.PacketQueue.PutPrivate | video_message/android/ffmpeg-2.8.1/ffplay.c:393-419 | On the linked list: -1 and no change when aborted, else the packet is appended with the serial (a flush packet raises it first); the chain stays linked up to last_pkt and the counts stay exact |
| PacketQueues.PacketQueue.Flush | video_message/android/ffmpeg-2.8.1/ffplay.c:458-473 | Empties the queue, keeps serial and abort flag |
| PacketQueues.PacketQueue.Abort | video_message/android/ffmpeg-2.8.1/ffplay.c:482-491 | Sets the abort flag only |
| PacketQueues.PacketQueue.StartQueue | video_message/android/ffmpeg-2.8.1/ffplay.c:493-499 | Clears the abort flag and puts a flush packet |
| PacketQueues.PacketQueue.Get | video_message/android/ffmpeg-2.8.1/ffplay.c:502-537 | -1 when aborted, 0 when empty, else the first entry with its serial, which is removed; byte and packet counts follow |
| PacketQueues.PacketQueue.Acyclic | video_message/android/ffmpeg-2.8.1/ffplay.c:405-410 | The nodes of the chain are pairwise distinct |
| PacketQueues.PutKeepsChained | video_message/android/ffmpeg-2.8.1/ffplay.c:405-407 | Along the queue the serial rises by one exactly at flush packets and ends at the queue serial: kept by put |
| PacketQueues.PopKeepsChained | video_message/android/ffmpeg-2.8.1/ffplay.c:516-526 | ... and by get |
| PacketQueues.SerialsNondecreasing | video_message/android/ffmpeg-2.8.1/ffplay.c:405-407 | Serials never decrease along the list and never exceed the queue serial |
| PacketQueues.BytesAdd | video_message/android/ffmpeg-2.8.1/ffplay.c:415 | The byte count is the size of the data plus one node for every entry, and adds up over the list |
| DecoderProtocol.StepKeepsInv | video_message/android/ffmpeg-2.8.1/ffplay.c:548-631 | Every step of reader, main and decoder thread, a filter error included, keeps the protocol invariant: the first queued packet is a flush or belongs to the last flush taken; a packet that may still be decoded was queued under the serial of the last codec flush; ... |
| DecoderProtocol.OneSerialBetweenFlushes | video_message/android/ffmpeg-2.8.1/ffplay.c:548-573 | Over every run, all packets handed to the codec between two flushes of it were queued under one serial |
| DecoderProtocol.NoStepBackInTime | video_message/android/ffmpeg-2.8.1/ffplay.c:557-573 | The serials under which the decoded packets were queued never decrease: a packet from before a seek is never decoded after one from after it, also across closing and reopening the stream |
| DecoderProtocol.FedInQueueOrder | video_message/android/ffmpeg-2.8.1/ffplay.c:556-573 | The codec sees only packets that were queued, as they were queued, and in queue order, over every run with seeks and reopenings |
| DecoderProtocol.FrameTagIsCodecEpoch | video_message/android/ffmpeg-2.8.1/ffplay.c:2036 | Whenever decoder_decode_frame returns, pkt_serial (with which frames are tagged) is the serial the codec was last flushed for |
| DecoderProtocol.StaleFinishedNeverMatches | video_message/android/ffmpeg-2.8.1/ffplay.c:616-625 | If a finished mark equals the queue serial after a seek, be the decoder thread alive or gone, it was set after the seek; the mark from before differs |
| DecoderProtocol.SeekMakesStale | video_message/android/ffmpeg-2.8.1/ffplay.c:2968-2980 | A seek that goes through raises the serial above that of every packet fed, frame tag and finished mark so far |
| DecoderTurns.PacketsTakeTurns | video_message/android/ffmpeg-2.8.1/ffplay.c:556-627 | Over every run: after a flush the codec gets the packet queued next, then every further one in turn; an audio packet is handed over again, less the bytes used so far, until they are used up or the codec fails, a null packet until no frame comes; none is left out or left early except when a flush follows |
| DecoderTurns.VideoPacketsFedOnce | video_message/android/ffmpeg-2.8.1/ffplay.c:614-620 | For codecs other than audio every packet with data is handed over once, and whole |
| DecoderTurns.ReturnsExactly | video_message/android/ffmpeg-2.8.1/ffplay.c:621-630 | decoder_decode_frame returns right after a frame came out or with a finished stream, with the codec's answer, and goes on otherwise; the stream is marked finished exactly when a null packet brings no frame |
| DecoderTurns.AbortStopsFeeding | video_message/android/ffmpeg-2.8.1/ffplay.c:553-562 | After an abort the codec gets at most one more packet |
| VideoSync.OutputStream.DoVideoOut | video_message/android/ffmpeg-2.8.1/ffmpeg.c:953-1252 | The imperative decision, counters and emit loop compute the specification Step on the stream fields and append exactly its frames |
| VideoSync.OutputStream.DecideFrames | video_message/android/ffmpeg-2.8.1/ffmpeg.c:987-1067 | The drift arithmetic, the clipping, the switch over the sync methods with its fall through, and the frame limit compute the planned numbers and set sync_opts |
| VideoSync.OutputStream.Count | video_message/android/ffmpeg-2.8.1/ffmpeg.c:1066-1089 | The nb0 history, drop and dup counters, last_droped, and the "duplication too large" return |
| VideoSync.OutputStream.EmitFrames | video_message/android/ffmpeg-2.8.1/ffmpeg.c:1092-1240 | The loop over the copies: picture chosen, timestamp, forced key frame, early returns |
| VideoSync.BalancedExactly | video_message/android/ffmpeg-2.8.1/ffmpeg.c:1074-1113 | The counters of one call balance with the frames emitted if and only if the call neither skips over a counted drop or a flush nor is cut short |
| VideoSync.StepLedger | video_message/android/ffmpeg-2.8.1/ffmpeg.c:1066-1113 | ... and otherwise they are off by exactly the stated amount |
| VideoSync.RunLedger | video_message/android/ffmpeg-2.8.1/ffmpeg.c:1066-1113 | The books of any run, skips and cuts included: off by the sum of the amounts of its calls |
| VideoSync.ConservedExactly | video_message/android/ffmpeg-2.8.1/ffmpeg.c:1066-1113 | From balanced books, emitted = received - dropped + duplicated - the picture held back if and only if that sum is zero |
| VideoSync.Conservation | video_message/android/ffmpeg-2.8.1/ffmpeg.c:1066-1089 | ... and it is over any run without bad skips and cuts, in every sync method |
| VideoSync.ConservationAtEnd | video_message/android/ffmpeg-2.8.1/ffmpeg.c:987-991 | After the end flush nothing is held back |
| VideoSync.CountersTellTheTruth | video_message/android/ffmpeg-2.8.1/ffmpeg.c:1074-1089 | nb_frames_drop is the number of received pictures never emitted (the held back one aside) and nb_frames_dup the number of frames that show a picture again |
| VideoSync.StepTruthful | video_message/android/ffmpeg-2.8.1/ffmpeg.c:1080-1102 | ... kept by a call exactly unless it is a start of stream where all copies count as repeats of a previous picture that does not exist |
| VideoSync.FirstPictureMiscounted | video_message/android/ffmpeg-2.8.1/ffmpeg.c:1045-1089 | ... which does arise: a first picture at time 1.3 goes out once, yet counts as a duplicate and as held back |
| VideoSync.FreshStreamAccounts | video_message/android/ffmpeg-2.8.1/ffmpeg.c:1066-1089 | A stream from its creation on: conservation, and true counters while no such start arises |
| VideoSync.FrameLimit | video_message/android/ffmpeg-2.8.1/ffmpeg.c:1066-1067 | frame_number counts the frames emitted and never passes max_frames |
| VideoSync.CfrStampsContiguous | video_message/android/ffmpeg-2.8.1/ffmpeg.c:1106 | At a constant rate (with vscfr from the first frame on) the k-th emitted frame has timestamp k after the start, whatever the input, skips and limits |
| VideoSync.CfrDriftBounded | video_message/android/ffmpeg-2.8.1/ffmpeg.c:994-1050 | cfr and vscfr, non-decreasing non-negative times, fixed non-negative duration: the drift after every call stays in [-2.1, 0.5], except in [-1.5, 1.0] after the call with which vscfr sets its clock |
| VideoSync.DriftStep | video_message/android/ffmpeg-2.8.1/ffmpeg.c:1039-1050 | One call brings the drift back into the band exactly when it is not a "duplication too large" skip |
| VideoSync.FirstDrift | video_message/android/ffmpeg-2.8.1/ffmpeg.c:1032-1050 | The call with which vscfr sets its clock leaves the drift in [-1.5, 1.0] |
| VideoSync.FirstDriftLeavesBand | video_message/android/ffmpeg-2.8.1/ffmpeg.c:1032-1050 | ... and 1.0 is reached |
| VideoSync.NewPicturePlacement | video_message/android/ffmpeg-2.8.1/ffmpeg.c:1045-1049 | cfr and vscfr, under any limit: a late picture leaves all slots more than 1.1 before its time to the previous one and takes the others |
| VideoSync.PunctualPictureAlone | video_message/android/ffmpeg-2.8.1/ffmpeg.c:997-1049 | A picture not later than that goes out without the previous one |
| VideoSync.CfrDropsExactly | video_message/android/ffmpeg-2.8.1/ffmpeg.c:1041-1044 | At a constant rate a picture is dropped if and only if it ends more than 1.1 before the next slot, or, once frames are out, earlier than -frame_drop_threshold |
| VideoSync.SkipsExactly | video_message/android/ffmpeg-2.8.1/ffmpeg.c:1080-1085 | A gap of n frames is skipped, with a drop counted and the clock left, if and only if n is more than 30 times -dts_error_threshold; else n frames go out |
| VideoSync.UnclockedPlacement | video_message/android/ffmpeg-2.8.1/ffmpeg.c:1057-1060 | -vsync passthrough and drop: every picture goes out once, with the stamp nearest to its time |
| VideoSync.HistoryRecordsRepeats | video_message/android/ffmpeg-2.8.1/ffmpeg.c:1069-1072 | The history holds how often each of the last three calls repeated the previous picture |
| VideoSync.FlushRepeatsMiddle | video_message/android/ffmpeg-2.8.1/ffmpeg.c:987-991 | The end flush repeats the last picture as often as the middle one of these three |
| VideoSync.LimitOnlyCuts | video_message/android/ffmpeg-2.8.1/ffmpeg.c:1066-1067 | Under -frames the frames are the first of those without the limit, as many as there is room for |
| VideoSync.VfrPlacement | video_message/android/ffmpeg-2.8.1/ffmpeg.c:1051-1056 | At a variable rate a picture is dropped exactly when it ends 0.6 or more before the next slot, else goes out once, on the slot or on the nearest stamp to its time |
| VideoSync.FirstGapClosed | video_message/android/ffmpeg-2.8.1/ffmpeg.c:1032-1038 | vscfr does not fill the gap before the first picture: the frames emitted show that picture, the first one with the stamp nearest to its time, no more of them than its duration asks for |
| VideoSync.StampsIncrease | video_message/android/ffmpeg-2.8.1/ffmpeg.c:1018-1061 | In cfr, vscfr and vfr emitted timestamps strictly increase over any run, for any inputs at all |
| VideoSync.PicturesInOrder | video_message/android/ffmpeg-2.8.1/ffmpeg.c:1098-1113 | In every sync method, with and without -t and -frames: once a newer picture has been emitted no older one ever is |
| VideoSync.FirstFrameServes | video_message/android/ffmpeg-2.8.1/ffmpeg.c:1151-1154 | Request j for a key frame is served by the first frame after the one serving request j - 1 whose timestamp reaches it; no two frames serve one request |
| VideoSync.Rint | video_message/android/ffmpeg-2.8.1/ffmpeg.c:1046 | lrint: within one half of its argument |
| ForcedKeyframes.ParseForcedKeyFrames | video_message/android/ffmpeg-2.8.1/ffmpeg.c:2655-2716 | The array is exactly full at the end for any mix of times and chapters entries, and its contents are the sorted arrangement of all times asked for |
| ForcedKeyframes.AddEntry | video_message/android/ffmpeg-2.8.1/ffmpeg.c:2679-2707 | One entry: the array is resized for chapters and the entry's times are appended |
| ForcedKeyframes.EntriesCounted | video_message/android/ffmpeg-2.8.1/ffmpeg.c:2662-2664 | One entry more than commas |
| ForcedKeyframes.EntriesJoin | video_message/android/ffmpeg-2.8.1/ffmpeg.c:2672-2677 | The entries joined by commas are the text, and none holds a comma |
| ForcedKeyframes.TimesOfEntry | video_message/android/ffmpeg-2.8.1/ffmpeg.c:2679-2707 | An entry asks for its time, or for every chapter start moved by the time after the word |
| ForcedKeyframes.SortSorts | video_message/android/ffmpeg-2.8.1/ffmpeg.c:2579-2583 | The comparison sorts: ascending and a permutation |
| ForcedKeyframes.SortedUnique | video_message/android/ffmpeg-2.8.1/ffmpeg.c:2713 | The result does not depend on the sorting algorithm |
| MuxTimestamps.MuxStream.WriteFrame | video_message/android/ffmpeg-2.8.1/ffmpeg.c:636-776 | The imperative repair, frame limit and last_mux_dts update compute the specification Write |
| MuxTimestamps.GuessIsMedian | video_message/android/ffmpeg-2.8.1/ffmpeg.c:742-745 | The replacement stamp is the median of pts, dts and last dts + 1 |
| MuxTimestamps.WrittenPtsNotBeforeDts | video_message/android/ffmpeg-2.8.1/ffmpeg.c:735-768 | Every written packet with both stamps has pts >= dts |
| MuxTimestamps.UnchangedExactly | video_message/android/ffmpeg-2.8.1/ffmpeg.c:650-768 | A packet passes unchanged if and only if there is nothing to repair: in order, on its own and after its predecessor, and no stamps to drop |
| MuxTimestamps.StreamUnchangedExactly | video_message/android/ffmpeg-2.8.1/ffmpeg.c:650-770 | A whole stream of any kind leaves unchanged if and only if there is nothing to repair throughout and the frame limit leaves room for all of it |
| MuxTimestamps.RepairIsMinimal | video_message/android/ffmpeg-2.8.1/ffmpeg.c:735-768 | Guess and clamp together: the smallest allowed dts not below the dts, or below the pts of a reversed packet |
| MuxTimestamps.DefinednessKept | video_message/android/ffmpeg-2.8.1/ffmpeg.c:735-768 | Undefined stamps stay undefined, defined ones stay defined |
| MuxTimestamps.StampsDropped | video_message/android/ffmpeg-2.8.1/ffmpeg.c:650-652 | Under -vsync drop, or a negative -async, every audio or video packet is written without stamps |
| MuxTimestamps.OtherStreamsUntangled | video_message/android/ffmpeg-2.8.1/ffmpeg.c:735-750 | Other streams are not clamped; a reversed packet gets the median for both stamps |
| MuxTimestamps.DtsMonotone | video_message/android/ffmpeg-2.8.1/ffmpeg.c:747-770 | Over any run, dts strictly increase (never decrease on a non-strict muxer) along any stretch of packets with defined dts |
| MuxTimestamps.FollowsUnlessBehind | video_message/android/ffmpeg-2.8.1/ffmpeg.c:735-770 | The dts written follows the last defined dts, however long ago that was, if and only if the packet does not come after a packet without dts and below that dts |
| MuxTimestamps.DtsInOrderExactly | video_message/android/ffmpeg-2.8.1/ffmpeg.c:735-770 | Over a whole run any two defined dts are in order (strictly on a strict muxer) if and only if no packet after such a gap comes in below the last defined dts |
| MuxTimestamps.UndefinedDtsResets | video_message/android/ffmpeg-2.8.1/ffmpeg.c:747-770 | After a packet without dts the next one keeps its dts (a reversed one takes its pts), whatever was written before |
| MuxTimestamps.DtsStepsBack | video_message/android/ffmpeg-2.8.1/ffmpeg.c:747-770 | ... so dts do step back: 9, none, 5 on a strict muxer |
| MuxTimestamps.PacketLimit | video_message/android/ffmpeg-2.8.1/ffmpeg.c:661-667 | Exactly the first packets up to max_frames are written on streams counted here, all of them elsewhere: packet k out is packet k in, repaired after packet k - 1 out |
| JsonWriters.EscapeStr | video_message/android/ffmpeg-2.8.1/ffprobe.c:1363-1381 | The escaping loop computes the escaped text |
| JsonWriters.EscapeForms | video_message/android/ffmpeg-2.8.1/ffprobe.c:1365-1378 | Exactly quote, backslash and control characters are escaped: by letter where there is one, else by four lower case hexadecimal digits |
| JsonWriters.JsonWriter.SectionHeader | video_message/android/ffmpeg-2.8.1/ffprobe.c:507-529 | Pushes a level and prints separator and opening as the event machine says |
| JsonWriters.JsonWriter.PrintOpening | video_message/android/ffmpeg-2.8.1/ffprobe.c:1385-1421 | The three shapes of an opening, with the type member inside packets_and_frames |
| JsonWriters.JsonWriter.SectionFooter | video_message/android/ffmpeg-2.8.1/ffprobe.c:531-545 | Counts the section in its parent, prints the closing, pops the level |
| JsonWriters.JsonWriter.PrintInteger | video_message/android/ffmpeg-2.8.1/ffprobe.c:547-556 | Prints and counts an integer if the entry is shown |
| JsonWriters.JsonWriter.PrintString | video_message/android/ffmpeg-2.8.1/ffprobe.c:617-651 | Prints and counts a string if the entry is shown and not optional |
| JsonWriters.JsonWriter.PrintItem | video_message/android/ffmpeg-2.8.1/ffprobe.c:1445-1481 | Separator, indent, escaped key, value |
| JsonWriters.CompactKeepsLine | video_message/android/ffmpeg-2.8.1/ffprobe.c:1445-1481 | In compact mode items stay on the line |
| JsonWriters.CompactObjectOnOneLine | video_message/android/ffmpeg-2.8.1/ffprobe.c:1407-1441 | ... and so do the brackets of an object |
| JsonWriters.IndentedStartsLines | video_message/android/ffmpeg-2.8.1/ffprobe.c:1383-1481 | Otherwise every item, and an object's opening and closing bracket, is on its own line, items and opening brackets four blanks in for each level |
| JsonTrees.MachineIsPrinter | video_message/android/ffmpeg-2.8.1/ffprobe.c:1385-1481 | The event driven writer prints exactly what a recursive printer prints for the same tree, in both layouts |
| JsonRoundTrip.EscapeReads | video_message/android/ffmpeg-2.8.1/ffprobe.c:1363-1381 | Any string survives escaping, quoting and reading by RFC 8259 section 7 |
| JsonRoundTrip.IntReads | video_message/android/ffmpeg-2.8.1/ffprobe.c:1479 | Any integer survives printing and reading |
| JsonRoundTrip.RoundTripExactly | video_message/android/ffmpeg-2.8.1/ffprobe.c:1353-1481 | The text printed for a nested tree of sections parses (RFC 8259) to exactly the tree of displayed items, if and only if every packets_and_frames element displays an item; otherwise it is not JSON |
| JsonRoundTrip.EventsRoundTrip | video_message/android/ffmpeg-2.8.1/ffprobe.c:507-556 | Every event sequence from the header of a wrapper to its footer that is well nested under the kinds of sections is that of a tree, so the same holds of its text |
| JsonRoundTrip.ItemsMeant | video_message/android/ffmpeg-2.8.1/ffprobe.c:547-651 | What an item means: its key and value, nothing if it is optional or not selected |
| JsonTrees.SiblingsCover | video_message/android/ffmpeg-2.8.1/ffprobe.c:507-545 | Well nested events up to a footer are those of a forest of sections and items |
| JsonTable.TableRoundTripExactly | video_message/android/ffmpeg-2.8.1/ffprobe.c:165-208 | ... for every tree that follows the section table |
| JsonTable.BareElementIsNotJson | video_message/android/ffmpeg-2.8.1/ffprobe.c:1409-1417 | A packet without displayed fields under packets_and_frames: the output is not JSON |
| JsonTable.TableHeight | video_message/android/ffmpeg-2.8.1/ffprobe.c:326 | No more than six sections are ever open, so the limit of ten levels is never hit |
| Sections.TableFits | video_message/android/ffmpeg-2.8.1/ffprobe.c:165-208 | In the table arrays hold objects only and the wrapper is never nested |
| CompactWriters.CEscapeStr | video_message/android/ffmpeg-2.8.1/ffprobe.c:901-919 | The C escaping loop |
| CompactWriters.CsvEscapeStr | video_message/android/ffmpeg-2.8.1/ffprobe.c:924-940 | The quoting decision and doubling loop |
| CompactWriters.CompactWriter.PrintStr | video_message/android/ffmpeg-2.8.1/ffprobe.c:1039-1050 | Adds one field to the row: separator before all but the first |
| CompactWriters.RowReads | video_message/android/ffmpeg-2.8.1/ffprobe.c:901-940 | Splitting and unescaping a printed row gives back its fields, empty ones included, in both modes |
| CompactWriters.PlainFieldsExactly | video_message/android/ffmpeg-2.8.1/ffprobe.c:901-940 | A field is printed as it is if and only if it holds none of the characters that need escaping or quoting |
| CompactWriters.UnambiguousExactly | video_message/android/ffmpeg-2.8.1/ffprobe.c:977-998 | No two rows print alike if and only if the separator is not a double quote (CSV), or not a backslash or one of b, f, n, r (C escapes) |
| CommandLine.FindOptionDef | video_message/android/ffmpeg-2.8.1/cmdutils.c:198-209 | The first option whose name equals the text before the colon |
| CommandLine.MatchGroupSeparator | video_message/android/ffmpeg-2.8.1/cmdutils.c:620-632 | The first group with that separator, or -1 |
| CommandLine.OptionParseContext.constructor | video_message/android/ffmpeg-2.8.1/cmdutils.c:683-702 | Empty groups and the default scaler flags |
| CommandLine.OptionParseContext.FinishGroup | video_message/android/ffmpeg-2.8.1/cmdutils.c:640-666 | The open options and dictionaries move into a new group of the list and start afresh |
| CommandLine.OptionParseContext.AddOption | video_message/android/ffmpeg-2.8.1/cmdutils.c:671-681 | Global exactly when none of PERFILE, SPEC, OFFSET is set |
| CommandLine.OptionParseContext.Round | video_message/android/ffmpeg-2.8.1/cmdutils.c:744-779 | One round of the loop up to the separators: same token, next index and state as the specification, or the same error |
| CommandLine.OptionParseContext.PlainOption | video_message/android/ffmpeg-2.8.1/cmdutils.c:781-826 | ... for options, library options and -nofoo |
| CommandLine.OptionParseContext.SplitCommandline | video_message/android/ffmpeg-2.8.1/cmdutils.c:731-835 | The loop returns the error of the specification, or succeeds with the groups built from its tokens |
| CommandLine.Conservation | video_message/android/ffmpeg-2.8.1/cmdutils.c:745-828 | On success the tokens, written out, are the arguments: each used exactly once, in order, reading no further than argv[argc] |
| CommandLine.TokensMean | video_message/android/ffmpeg-2.8.1/cmdutils.c:745-823 | Every token of a successful split means what it says: a separator is the first group's with that name; an option is the first of its name and no separator, with the next argument, or "1" if it takes none; a library option is known to neither; a negated one is boolean, known to none of these, and has "0"; anything else does not begin with a dash or follows "--" |
| CommandLine.ErrorsMean | video_message/android/ffmpeg-2.8.1/cmdutils.c:763-826 | A round fails only for an argument that is missing, a name that nothing knows, or an error of the library, with the status for it |
| CommandLine.SplitFailsAt | video_message/android/ffmpeg-2.8.1/cmdutils.c:745-826 | A split fails with the error of a round that fails |
| CommandLine.SplitIsGrouping | video_message/android/ffmpeg-2.8.1/cmdutils.c:640-681 | The result is the grouping: each list has its groups in order, each with exactly the local options and library options since the previous group end plus the default; globals apart, in order |
| CommandLine.GroupsStartFresh | video_message/android/ffmpeg-2.8.1/cmdutils.c:659-664 | The dictionary of every group starts with the default of the scaler |
| CommandLine.AvEntriesExactly | video_message/android/ffmpeg-2.8.1/cmdutils.c:800-806 | ... and holds, for each library option, its key and value in each dictionary that takes it |
| CommandLine.GroupsDoNotLeak | video_message/android/ffmpeg-2.8.1/cmdutils.c:652-665 | After a group end the rest of the command line gets exactly the groups it would get alone |
| CommandLine.OptionsCounted | video_message/android/ffmpeg-2.8.1/cmdutils.c:640-681 | Every option token ends up in the result exactly once: among the globals, in a finished group or in the open one |
| CommandLine.SplitKeepsOptions | video_message/android/ffmpeg-2.8.1/cmdutils.c:731-835 | ... so a successful split holds as many options as the command line has |
| CommandLine.OptionsByFlags | video_message/android/ffmpeg-2.8.1/cmdutils.c:671-681 | Option tokens divide into globals and locals by their flags alone |
| SurfacePool.Dxva2Context.GetBuffer | video_message/android/ffmpeg-2.8.1/ffmpeg_dxva2.c:203-250 | The scan loop issues what the specification picks, or changes nothing |
| SurfacePool.Dxva2Context.ReleaseBuffer | video_message/android/ffmpeg-2.8.1/ffmpeg_dxva2.c:186-201 | Clears the mark of the surface if it is in the pool |
| SurfacePool.Dxva2Context.DestroyDecoder | video_message/android/ffmpeg-2.8.1/ffmpeg_dxva2.c:124-145 | Empties the pool and resets its age |
| SurfacePool.ScanFindsOldestFree | video_message/android/ffmpeg-2.8.1/ffmpeg_dxva2.c:213-217 | A free surface of smallest age, the first of them |
| SurfacePool.UsedExactlyWhenHeld | video_message/android/ffmpeg-2.8.1/ffmpeg_dxva2.c:186-250 | Over every run of gets, releases, decoder changes: used exactly when one live wrapper holds the surface |
| SurfacePool.DestroyMakesRoom | video_message/android/ffmpeg-2.8.1/ffmpeg_dxva2.c:124-145 | Destroying the decoder leaves nothing to issue, takes no wrapper away, and lets a new decoder follow |
| SurfacePool.ExhaustedExactly | video_message/android/ffmpeg-2.8.1/ffmpeg_dxva2.c:218-221 | A request fails exactly when all surfaces are held |
| SurfacePool.OldestIssueFirst | video_message/android/ffmpeg-2.8.1/ffmpeg_dxva2.c:213-246 | No surface is issued again while a free one issued earlier waits |
| SurfacePool.NeverIssuedComesFirstUnless | video_message/android/ffmpeg-2.8.1/ffmpeg_dxva2.c:213-246 | Free surfaces never issued are passed over if and only if the surface of the very first issue is free, was not issued again and lies below all of them |
| SurfacePool.FirstSurfaceReissued | video_message/android/ffmpeg-2.8.1/ffmpeg_dxva2.c:213-246 | ... and that does happen |
| AudioOutput.AudioDevice.Callback | video_message/android/ffmpeg-2.8.1/ffplay.c:2427-2456 | Fills the whole buffer with the next bytes of the concatenated decoded chunks (silence on error), going another round for an empty chunk; audio_write_buf_size is what remains of them |
| AudioOutput.Chunk | video_message/android/ffmpeg-2.8.1/ffplay.c:2437-2440 | On error the callback plays zeros, as many whole frames as fit into 512 bytes |
| AudioOutput.OutputDependsOnTotalOnly | video_message/android/ffmpeg-2.8.1/ffplay.c:2434-2455 | What has been played and fetched depends only on the total length of the callbacks, not on how it was cut, for any decoder |
| AudioOutput.SampleDisplay.Update | video_message/android/ffmpeg-2.8.1/ffplay.c:2246-2262 | After any sequence of updates the ring holds the most recent samples at their positions modulo its size, and the index is the total modulo its size |
| SubtitleBlend.BlendSubrect | video_message/android/ffmpeg-2.8.1/ffplay.c:841-882 | Each plane afterwards, place by place: inside the window the mix of what was there and the byte of the rectangle by its alpha of 255, rounded down, for chroma at half resolution by the mean of four alphas; outside it unchanged |
| SubtitleBlend.WindowIsNearest | video_message/android/ffmpeg-2.8.1/ffplay.c:848-851 | The window has the size of the rectangle as far as the picture allows and lies as near to its position as it can |
| SubtitleBlend.BlendLuma | video_message/android/ffmpeg-2.8.1/ffplay.c:856-864 | The luma walk |
| SubtitleBlend.BlendChroma | video_message/android/ffmpeg-2.8.1/ffplay.c:866-881 | The chroma walks at half resolution |
| SubtitleBlend.PlaceByPlace | video_message/android/ffmpeg-2.8.1/ffplay.c:856-864 | Inside the rectangle the blended value, between old and new; outside no change |
| SubtitleBlend.SourcesInside | video_message/android/ffmpeg-2.8.1/ffplay.c:848-881 | No source byte outside the rectangle's planes is read, for any size of it, negative ones included |
| SubtitleBlend.AlphaBlend | video_message/android/ffmpeg-2.8.1/ffplay.c:834-835 | The exact mix of the two values rounded down, so between the two; alpha 0 and 255 select one |
| Clocks.RunningReading | video_message/android/ffmpeg-2.8.1/ffplay.c:1221-1231 | A running clock reads pts + speed * elapsed |
| Clocks.ReadsWhatWasSet | video_message/android/ffmpeg-2.8.1/ffplay.c:1233-1239 | A clock reads what it was set to |
| Clocks.NewClockKeepsTime | video_message/android/ffmpeg-2.8.1/ffplay.c:1253-1259 | A new clock has no reading; once set it runs with the time |
| Clocks.SpeedChangeIsSmooth | video_message/android/ffmpeg-2.8.1/ffplay.c:1247-1251 | Changing the speed makes no jump |
| Clocks.ExternalClockPauses | video_message/android/ffmpeg-2.8.1/ffplay.c:1333-1344 | The external clock is frozen while paused and resumes where it stood |
| Clocks.VideoClockAfterPause | video_message/android/ffmpeg-2.8.1/ffplay.c:1335-1341 | While paused the video clock reads its last update; it resumes as if it had run through the pause, or, after ENOSYS, at its last update |
| Clocks.VideoClockJumpsUnless | video_message/android/ffmpeg-2.8.1/ffplay.c:1335-1341 | It resumes at the reading it had if and only if it has no reading, or speed 0, or the pause took no time (after ENOSYS: the pause began at its last update) |
| Clocks.VideoClockStepsBack | video_message/android/ffmpeg-2.8.1/ffplay.c:1335-1341 | ... so it does step back, even in a pause that takes no time |
| Clocks.PauseStopsAll | video_message/android/ffmpeg-2.8.1/ffplay.c:1343 | Pausing stops all three clocks, resuming starts them |
| Clocks.FrameTimerSkipsPause | video_message/android/ffmpeg-2.8.1/ffplay.c:1336 | After a pause the frame on screen is as old as it was at the last update of the video clock |
| Clocks.SpeedInRange | video_message/android/ffmpeg-2.8.1/ffplay.c:1304-1316 | Over every run the external speed stays in [0.900, 1.010] |
| Clocks.SpeedReturnsToOne | video_message/android/ffmpeg-2.8.1/ffplay.c:1311-1315 | A hundred checks with the queues in between bring it back to exactly 1.0 |
| Clocks.SpeedFollowsFill | video_message/android/ffmpeg-2.8.1/ffplay.c:1304-1316 | Two or fewer packets of one stream slow the clock down, more than ten of every stream speed it up, else its speed moves towards 1 |
| Clocks.PlayClocks.CheckExternalClockSpeed | video_message/android/ffmpeg-2.8.1/ffplay.c:1304-1316 | Sets the next speed without a jump of the clock |
| Clocks.PlayClocks.StreamTogglePause | video_message/android/ffmpeg-2.8.1/ffplay.c:1333-1344 | Computes the specification TogglePause |

## Left out

- SDL, windows, keyboard, threads and locks as such; memory allocation failure, logging and fatal exits.
- The codec, format, filter, scaling and resampling libraries: answers of the codec, decoded chunks, and whether a library option is recognised are parameters.
- Floating point rounding and 64-bit overflow.
- ffplay: decoder_decode_frame is a state machine over its steps, not a loop in a method, because other threads act between its lines; the timestamps it gives frames are not modelled.
- ffplay: the audio clock set at the end of the audio callback, the sample display call inside it, and the search for an audio format SDL accepts.
- FrameQueues.DeadlockExactly: speaks of the two waits of the ring alone, not of waits elsewhere in the decoder.
- ffmpeg: the duration passed to the frame rate conversion and the choice behind -vsync auto are inputs; key frames forced by an expression or by the source; raw picture output; statistics.
- AudioOutput.AudioDevice.Callback: assumes that a decoder call with something to play comes eventually; else the source loops for ever.
- VideoSync.CfrDriftBounded: assumes no "duplication too large" skip; VideoSync.DriftStep shows that this is exactly when a call leaves the band.
- ForcedKeyframes.ParseForcedKeyFrames: time parsing is a parameter, and sorting is by specification, since qsort is a library function.
- MuxTimestamps.DtsMonotone: restricted to stretches of packets with defined dts; MuxTimestamps.DtsInOrderExactly says when the order holds across gaps as well.
- ffmpeg: bitstream filters and side data in write_frame.
- JsonWriters.JsonWriter.PrintString: strings count as valid, so the validation of writer_print_string and an item counted although its validation failed are not modelled.
- CompactWriters.CompactWriter.PrintStr: the row without keys and without the prefix of nested sections.
- ffprobe: string validation, rational numbers, the default, flat, ini and XML writers, nested sections and section names in compact rows.
- JsonRoundTrip.RoundTripExactly: characters stand for the bytes or code points of the text; encoding is not modelled.
- cmdutils: dictionaries are the sequence of settings made, without the library's replacing of equal keys; array growth is appending to a sequence.
- SurfacePool.UsedExactlyWhenHeld: a new decoder gets distinct surfaces that no live wrapper holds, which the reference counts of Direct3D provide.
- The recorder and its server, x264, the AMR wrappers and the other hardware acceleration files.
