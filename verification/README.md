# A desk pet, its host and its panel: the model

Shiro is a small animated pet on a round trip between three programs. A Python host decides how it feels
and what it shows. A Rust firmware draws it, samples a touch pad and talks to the host over TCP. A C model of the
SSD1351 panel controller turns the firmware's SPI bytes into pixels. This Dafny project models the parts
where those programs have state, protocols and formats, and proves what they promise over every run, every
interleaving and every byte stream.

| file | models |
|---|---|
| `Connection.dfy` | the host's shared device connection as a transition system over its threads' program points |
| `ConnectionCalls.dfy` | what each of its calls does, alone and among others |
| `PresenceWake.dfy` | the coalesced wake-up between presence posters, the input queue and the pet loop |
| `UplinkQueue.dfy` | the firmware's bounded gesture channel and its connect, write and touch tasks |
| `Panel.dfy`, `ChipObject.dfy` | the panel controller: as functions on its state, and as the object with buffers, each handler proved equal to the function |
| `Display.dfy`, `Driver.dfy` | the firmware's display driver: the bytes it sends and what the panel makes of them; the framebuffer object |
| `SpriteCodec.dfy`, `SpriteCell.dfy` | the run-length code, the resumable decoder, bounding boxes and palette mapping |
| `Pipeline.dfy` | a cell of the sprite sheet followed all the way to the screen |
| `Png.dfy` | the PNG reader and writer |
| `Touch.dfy` | debouncer, gesture phases and rate limit |
| `UplinkWire.dfy`, `LineText.dfy`, `UplinkStream.dfy` | gesture frames, flat JSON, line framing and the host's reader |
| `UplinkTrip.dfy` | the uplink from pad samples to the calls of the host's sink |
| `Downlink.dfy`, `DownlinkTrip.dfy` | the firmware's byte loop and the host's behavior lines; the downlink from command to command |
| `Behavior.dfy`, `Contract.dfy` | behavior frames: the host's validation and the device's checks |
| `Body.dfy` | the four-state body |
| `Frames.dfy` | a tick of the pet loop from proposal to frame, over whole runs |
| `Waiting.dfy` | how long the loop waits, and its keepalives |
| `AffectModel.dfy` | drives and feelings |
| `Presence.dfy` | the presence mailbox and tracker |

Objects the programs update in place are classes here, each method proved against a function of the old
state; threads and cooperative tasks are transition systems, one step per shared access (for the firmware's
tasks, one step per `await`). Python floats are reals. 16-, 32- and 64-bit numbers are integers with their bounds,
saturation and wrap-around written out where they matter. A socket connects or fails, `recv` returns bytes,
nothing, a timeout or an error, and `sendall` succeeds or fails after a prefix; clocks, the model's answers,
checksums and compression are parameters.

A few places where a promise holds only on a condition are stated as they are in the code, with the exact
condition: an uplink line longer than the host's 256-byte buffer is handled as the receives happen to cut it,
and one longer than 511 bytes never whole (`UplinkStream.CutsNeverMatterExactlyForShortLines`,
`UplinkStream.SomeCutAgreesExactlyUpToLongest`), the loop's view of the owner can be out of date for all
the time it does not spend waiting before its next read (the rest of the tick and the keepalives between the
waits) and a second more, not just the second its cap suggests (`Waiting.BeliefIsFresh`,
`Waiting.BeliefCanBeStale`), a quiet presence post can change the tracker's class when only a foreground
application was known (`Presence.QuietPostKeepsClass`, `Presence.QuietPostCanChangeClass`; the comment in
host/presence.py 243-246 says every meaningful transition is reported), the minimum nap binds proposals of
sleeping, waking and awake, but a proposal of drowsy or an alert cuts it short (`Body.SleepEndsExactly`,
`Body.DueNapLastsExactly`, `Body.ProposalsCanCutANapShort`), and the rate limit may drop a double tap but never a
tap (`Touch.SuppressedExactlyWhenTooSoon`, `Touch.DoubleTapCanBeSuppressed`).

## Model

| member | source | states |
|---|---|---|
| `Connection.EverySocketIsAccountedFor` | host/transport.py:136-208 | In every interleaving of senders, keepalives, the reconnecting reader and close(), each socket ever opened is closed, or is the published reference and nobody else's duty, or has exactly one thread that must still publish or close it |
| `Connection.AtRestOnlyTheReferenceIsOpen` | host/transport.py:169-208 | With no thread between a connect and its publication, a socket is open iff it is the reference; after close() has finished none is open |
| `Connection.OwnerSettles` | host/transport.py:186-208 | An owner that can take the lock publishes or closes its socket within four steps of its own, and only by closing once a close() has read the reference |
| `Connection.HolderReleases` | host/transport.py:182-208 | Whoever holds the lock releases it within four steps of its own, whatever it does there |
| `Connection.OwnerCanAlwaysSettle` | host/transport.py:186-208 | From every reachable state an owned socket can be closed or published in at most eight steps: four of whoever holds the lock and four of the owner |
| `Connection.ClearedForGood` | host/transport.py:169-202 | Once close() has cleared the reference no thread sets it again, though the closed flag is written outside the lock |
| `Connection.NeverRepublished` | host/transport.py:186-208 | A socket that has left the reference never returns to it |
| `Connection.OnlyItsOwnDropUnpublishes` | host/transport.py:204-208 | Only a drop of that very socket, or a close() that will close it, takes a socket out of the reference; a stale drop leaves a newer connection alone |
| `Connection.CallsDoNotInterleave` | host/transport.py:136-167 | The bytes of one sendall call are contiguous on their socket |
| `Connection.RunInv` | host/transport.py:132-269 | The invariant of locks, sockets and program points holds after every schedule |
| `Connection.Moves` | host/transport.py:186-269 | Every change of the reference is a publication by a thread that holds the lock, or the clearing of the socket that thread drops or closes |
| `ConnectionCalls.EveryCallIsAnswered` | host/transport.py:136-176 | Over every interleaving, a call that is over has done its work or has a reason: a send has written a whole payload at its first or second sendall, has failed at two, or has failed at none or one and then could not connect or found the client closed; a keepalive has tried one sendall or found no reference; after a close the client is closed for good; the sockets of failed sendalls are closed |
| `ConnectionCalls.SendByItself` | host/transport.py:136-152 | From every reachable state with both locks free, a send by itself does what the call says as a whole, whatever the network does: reuse or connect, refuse if closed, write every byte on that socket, drop it on a failure, and try once more |
| `ConnectionCalls.KeepaliveByItself` | host/transport.py:154-167 | A keepalive by itself writes on the reference and drops it on a failure, or does nothing without one |
| `ConnectionCalls.CloseByItself` | host/transport.py:169-178 | A close by itself leaves the client closed, without a reference, and the old socket shut |
| `ConnectionCalls.ReaderByItself` | host/transport.py:212-269 | A turn of the reader by itself: it stops if closed, drops the reference on a failed receive, and reconnects after a first connection |
| `ConnectionCalls.ReaderStopsOnlyWhenClosed` | host/transport.py:212-215 | In no schedule does the reader stop before the client is closed |
| `PresenceWake.FlagMeansOneToken` | host/inputs.py:114-151 | The pending flag is set iff exactly one presence token exists: in one submitter's hand, once in the queue, or in the consumer's hand before the clear; at most one is ever queued |
| `PresenceWake.NoLostWakeUp` | host/control.py:212-215 | A loop that waits on an empty queue has read every reported change, unless the poster of the last change has still to look at the flag or the token is in a submitter's hand |
| `PresenceWake.SubmittedChangeIsRead` | host/pet_loop.py:138-142 | Once a reported change has been submitted, the loop by itself reads the mailbox within five steps and that read sees it |
| `PresenceWake.ReportedChangeIsReadAmongOthers` | host/pet_loop.py:138-142 | In every run and continuation, however many posters run on, once the loop has moved five times it has seen every change reported before |
| `PresenceWake.LoopIsNeverStuck` | host/inputs.py:123-151 | With a submitted change unread the loop can move, or one step of the one poster that holds the token or the queue's lock lets it |
| `PresenceWake.QueueKeepsAll` | host/inputs.py:114-151 | In every run what was in the queue and what posters put there, signals and other inputs alike, is what the loop took and what is in it, in that order |
| `PresenceWake.PostersWaitToBeTold` | host/inputs.py:123-141 | A poster hands in a signal only after a post that reported a change, and another input only when told to |
| `PresenceWake.HistoryIsThePosts` | host/control.py:210-215 | The numbers of writes and of the last reported change are those of the schedule |
| `PresenceWake.ReportIsHandedIn` | host/inputs.py:123-141 | With the lock free, three steps of the poster of a reported change leave the flag set, and a signal in the queue unless the flag was set already |
| `PresenceWake.TimeoutsReadToo` | host/inputs.py:143-147 | A wait that runs out is followed by a read of all that was written |
| `PresenceWake.RunInv` | host/inputs.py:123-151 | The token, lock and wake-up invariants hold after every schedule |
| `UplinkQueue.NeverWrittenAndAcknowledged` | device/src/bin/main.rs:387-427 | In every run of touches, accepts, disconnects, writes and errors no gesture is both fully written and acknowledged locally |
| `UplinkQueue.WritesAreFreshAndInOrder` | device/src/bin/main.rs:288-318 | What a connection writes was classified during that connection, in order and at most once |
| `UplinkQueue.EveryGestureHasOneFate` | device/src/bin/main.rs:288-436 | In every run each gesture has exactly one fate and is where it says: sent on its connection, acknowledged locally, queued, being written, pushed out with eight later ones of its own connection behind it, cleared by a later accept, or cut off in the middle of its write |
| `UplinkQueue.QueueDrains` | device/src/bin/main.rs:387-400 | From every reachable connected state, finishing the write under way and then good writes empty the queue on the same connection, and what was waiting is written in order and nothing else |
| `UplinkQueue.ConnectionsBeginAndEnd` | device/src/bin/main.rs:288-318 | In every reachable state a connection begins exactly at an accept, with an empty queue, and ends exactly at the end of the reader or an error of a write under way |
| `UplinkQueue.QueueIsLastEight` | device/src/bin/main.rs:429-436 | The queue is always the last eight gestures enqueued since the clear and not yet received |
| `UplinkQueue.EnqueueKeepsLastEight` | device/src/bin/main.rs:431-436 | One enqueue on a full or free channel keeps the last eight |
| `UplinkQueue.Channel.EnqueueInput` | device/src/bin/main.rs:431-436 | The bounded channel after an enqueue: oldest dropped when full, newest kept |
| `UplinkQueue.Channel.TrySend` | device/src/bin/main.rs:432-434 | A full channel refuses and is unchanged; otherwise the item is last |
| `UplinkQueue.Channel.TryReceive` | device/src/bin/main.rs:433 | Takes the first item, or none from an empty channel |
| `Panel.CutsDoNotMatter` | device/wokwi/src/ssd1351.c:379-402 | For every legal partition of a byte trace into SPI deliveries the chip ends in the state it reaches byte by byte |
| `Panel.AdvanceIsNextTurn` | device/wokwi/src/ssd1351.c:216-239 | Until the window is full each advance goes to the next turn, row-wise or column-wise |
| `Panel.AdvanceWraps` | device/wokwi/src/ssd1351.c:216-239 | From the last turn the cursor goes back to the start of the last column or row |
| `Panel.TurnBounds` | device/wokwi/src/ssd1351.c:144-150 | Every window position has a turn below the window's pixel count |
| `Panel.TurnInjective` | device/wokwi/src/ssd1351.c:216-239 | No two window pixels have the same turn, so the traversal is one-to-one |
| `Panel.ShadeIsWhatIsWritten` | device/wokwi/src/ssd1351.c:241-282 | The four bytes written for a word are its 5/6/5-to-8-bit expansion, red and blue exchanged iff the panel is set to BGR |
| `Panel.ShadeLights` | device/wokwi/src/ssd1351.c:241-282 | The four bytes written for two RAM bytes in terms of their bits: five, six and five bits on top of red, green and blue, their own top bits repeated below, alpha full; with BGR set red and blue change places |
| `Panel.PaintedPixels` | device/wokwi/src/ssd1351.c:256-260 | A pixel write changes its own four bytes and no other pixel, and stays inside the buffer |
| `Panel.WindowIsPainted` | device/wokwi/src/ssd1351.c:144-150 | A full window of RAM bytes leaves every window pixel, at its mirrored and flipped place, with the shade of its own two bytes, everything else as it was, and the pending count at zero |
| `Panel.ResetTakesAFrame` | device/wokwi/src/ssd1351.c:82-101 | A chip that was just reset is dark and takes a whole frame row by row from the top, upright and in RGB |
| `Panel.OffBlanksAndOnShows` | device/wokwi/src/ssd1351.c:152-187 | A display-off command blanks what is shown and keeps the RAM; a display-on command shows the RAM |
| `ChipObject.Chip.ResetPanel` | device/wokwi/src/ssd1351.c:82-101 | The object's reset state |
| `ChipObject.Chip.BeginWriteRam` | device/wokwi/src/ssd1351.c:144-150 | Cursor at the window's start and the pending count of the whole window |
| `ChipObject.Chip.NormalizedArgs` | device/wokwi/src/ssd1351.c:130-142 | Start and end clamped to the panel and put in order |
| `ChipObject.Chip.ApplyCurrentCommand` | device/wokwi/src/ssd1351.c:152-187 | The object after a command with all its arguments |
| `ChipObject.Chip.HandleCommandByte` | device/wokwi/src/ssd1351.c:189-197 | The object after a command byte |
| `ChipObject.Chip.HandleDataByte` | device/wokwi/src/ssd1351.c:199-214 | The object after an argument byte, dropped while RAM bytes are pending or none is expected |
| `ChipObject.Chip.AdvanceCursor` | device/wokwi/src/ssd1351.c:216-239 | The object's cursor moves as the traversal proved one-to-one |
| `ChipObject.Chip.WritePixel` | device/wokwi/src/ssd1351.c:241-263 | The buffer after one pixel, in place |
| `ChipObject.Chip.HandleRamBytes` | device/wokwi/src/ssd1351.c:265-288 | The object after a burst of RAM bytes; the picture is shown when the last one is in; the pending count never underflows |
| `ChipObject.Chip.SpiDone` | device/wokwi/src/ssd1351.c:379-402 | The object after one SPI delivery of commands, arguments or RAM bytes |
| `ChipObject.Chip.NextReadCount` | device/wokwi/src/ssd1351.c:290-307 | The next read never asks for more than what is pending, nor for more than the chunk |
| `Display.CommandTakesEffect` | device/src/display.rs:203-214 | A command with the number of arguments the chip expects takes effect as a whole |
| `Display.PowerUpFits` | device/src/display.rs:217-236 | Every command of init and of the window set-up carries exactly the argument count the chip expects |
| `Display.RemapIsDecoded` | device/src/display.rs:122-138 | For every orientation the re-map byte is decoded by the chip as that orientation |
| `Display.RemapBits` | device/src/display.rs:93-139 | Each bit of the re-map byte; the plain panel's is the 0x74 its comment names |
| `Display.PanelAndFramebufferMatchUp` | device/src/display.rs:76-139 | Panel pixels and framebuffer pixels correspond one to one in every orientation |
| `Display.FlushPaints` | device/src/display.rs:247-264 | A flush leaves the RAM picturing the framebuffer in the chip's orientation and shows it iff the display is on |
| `Display.InitLightsUp` | device/src/display.rs:216-245 | init leaves the panel on, in the orientation asked for, and black |
| `Display.ScreenShowsLastFrame` | device/src/display.rs:204-264 | After init, any earlier frames and one more, in any legal deliveries, each panel pixel shows the word of the framebuffer pixel its orientation calls for |
| `Driver.Ssd1351.Cmd` | device/src/display.rs:203-214 | The bytes a command puts on the wire |
| `Driver.Ssd1351.SetFullWindow` | device/src/display.rs:247-252 | The bytes that address the whole panel |
| `Driver.Ssd1351.Flush` | device/src/display.rs:254-264 | The bytes of a flush, framebuffer included |
| `Driver.Ssd1351.Init` | device/src/display.rs:216-245 | The bytes of init, and a black framebuffer |
| `Driver.Ssd1351.DrawIter` | device/src/display.rs:284-299 | The framebuffer after a list of pixels, clipped to the panel |
| `Driver.Ssd1351.Clear` | device/src/display.rs:301-312 | Every framebuffer pixel is the colour's word |
| `Driver.DrawnPixel` | device/src/display.rs:284-299 | Each framebuffer pixel holds the last colour drawn on it, and is untouched if none was |
| `SpriteCodec.EncodeRle` | host/tools/convert_sprite_sheet.py:549-565 | The in-place loop yields the run-length code |
| `SpriteCodec.CountRun` | host/tools/convert_sprite_sheet.py:552-559 | The longest run at a position that one command can carry |
| `SpriteCodec.ExpandEncode` | host/tools/convert_sprite_sheet.py:549-565 | The code is a complete stream whose expansion is the index list |
| `SpriteCodec.GreedyIsShortest` | host/tools/convert_sprite_sheet.py:549-565 | No complete stream for the same pixels is shorter than the encoder's |
| `SpriteCodec.DecodeIsExpand` | device/src/render.rs:379-415 | On any complete stream the device's decoder yields exactly the solid pixels of its expansion, in order |
| `SpriteCodec.DecodeEncode` | device/src/render.rs:376-416 | Decoding what was encoded gives back the visible pixels with their positions and colours, and nothing else |
| `SpriteCodec.AnyDataAscends` | device/src/render.rs:379-415 | On arbitrary data, broken off or too long, the decoded positions strictly increase inside the box |
| `SpriteCodec.SpritePixels.Next` | device/src/render.rs:379-415 | The resumable iterator hands out the decoded list one by one and then none, for any data |
| `SpriteCodec.SpritePixels.ReadCommand` | device/src/render.rs:396-411 | Reading one command changes nothing that is still to come |
| `SpriteCell.NearestPaletteIndex` | host/tools/convert_sprite_sheet.py:577-590 | The first palette entry at the least weighted distance, 0 for an empty palette |
| `SpriteCell.CompositeIsOverBlack` | host/tools/convert_sprite_sheet.py:568-574 | A pixel's word holds its three channels over black, rounded, in five, six and five bits; an opaque pixel keeps its channels' top bits and a clear one is black |
| `SpriteCell.DistanceWeights` | host/tools/convert_sprite_sheet.py:577-590 | The distance of two colours is the squares of the channel differences, green counting half |
| `SpriteCell.FindBox` | host/tools/convert_sprite_sheet.py:496-510 | The smallest box around the opaque pixels |
| `SpriteCell.ListIndices` | host/tools/convert_sprite_sheet.py:526-534 | The row-major list of the box: a nearest palette index for each opaque pixel (0 if the palette is empty), none for the others; the converter admits at most 128 colours (lines 243-244) |
| `SpriteCell.EncodeSprite` | host/tools/convert_sprite_sheet.py:484-546 | The sprite of a cell: empty for an empty cell, else the tight box and its code, for every palette the converter admits |
| `SpriteCell.BlitIsTheCell` | device/src/render.rs:345-416 | Drawing the sprite of a cell puts every opaque pixel at its own place plus the offset in a nearest palette colour, nothing else, in strict row-major order |
| `SpriteCell.BlitInOrder` | device/src/render.rs:379-415 | Any sprite, well made or not, draws no point twice and in row-major order |
| `SpriteCell.ColorKeepsWord` | device/src/display.rs:267-272 | A palette word survives the way through colour channels and back |
| `Pipeline.CellIsDrawn` | device/src/display.rs:284-299 | The framebuffer after drawing a converted cell is the cell clipped to the panel over the background |
| `Pipeline.WhereThePixelsGo` | device/src/display.rs:76-139 | In every orientation: at which panel pixel each framebuffer pixel is shown |
| `Pipeline.SheetToScreen` | host/tools/convert_sprite_sheet.py:484-546 | From sheet to screen: what each panel pixel shows, for every cell, palette, placement, background, orientation and delivery |
| `Png.PaethIsNearest` | host/tools/convert_sprite_sheet.py:400-409 | The Paeth predictor is the neighbour nearest to the estimate, ties to left, then up (section 6.6 of RFC 2083) |
| `Png.UnfilterScanline` | host/tools/convert_sprite_sheet.py:378-397 | The in-place loop brings a row back, each byte from its own encoded byte and the bytes left, above and above left as section 6 of RFC 2083 says, or refuses an unknown filter |
| `Png.UnfilteredComesBack` | host/tools/convert_sprite_sheet.py:378-397 | What the reader's function gives for a row is that same byte-by-byte relation, for all five filters and every row above |
| `Png.RowsAreRead` | host/tools/convert_sprite_sheet.py:148-160 | The rows are refused exactly for an unknown filter of a row that is not empty, and each row that is read comes back, byte by byte, from its own filter and bytes and the row above, zeros above the first |
| `Png.BigEndian` | host/tools/convert_sprite_sheet.py:111-122 | The first byte of a length or checksum is the most significant |
| `Png.UnfilterFilter` | host/tools/convert_sprite_sheet.py:378-397 | Unfiltering inverts the filter, for all five types and every row above |
| `Png.FilterUnfilter` | host/tools/convert_sprite_sheet.py:378-397 | Filtering an unfiltered scan line gives the scan line again |
| `Png.RowsOfScanlines` | host/tools/convert_sprite_sheet.py:148-160 | Reading a chain of rows inverts writing it, whatever filter each row has |
| `Png.ReadRgbaPng` | host/tools/convert_sprite_sheet.py:102-160 | The reader, its two loops and all its checks written out, computes the reading that the theorems are about |
| `Png.FindChunk` | host/tools/convert_sprite_sheet.py:111-122 | One chunk's length, kind, payload and checksum, or why there is none |
| `Png.ReadPicture` | host/tools/convert_sprite_sheet.py:134-160 | The checks on the header, the inflated data and its length, and the loop over the rows |
| `Png.ReadRows` | host/tools/convert_sprite_sheet.py:148-160 | The loop over the rows, each unfiltered against the one before, and the refusal of an unknown filter |
| `Png.ValidFilesAreRead` | host/tools/convert_sprite_sheet.py:102-160 | Every valid file is read as its picture: any filters, any cutting of the data into chunks, any unknown chunks between, anything after the end |
| `Png.WriteRgbaPng` | host/tools/convert_sprite_sheet.py:163-188 | The writer refuses a pixel buffer of the wrong size and otherwise lays out a valid file with filter 0 |
| `Png.WriteThenRead` | host/tools/convert_sprite_sheet.py:102-188 | Reading back what was written returns the same picture, for any checksum and any invertible compression |
| `Png.FirstChunkOfBytes` | host/tools/convert_sprite_sheet.py:412-418 | A written chunk is found again, whatever follows it |
| `Touch.EdgesAreLevelChanges` | device/touch/src/lib.rs:121-144 | A debounced edge is accepted exactly where the level held for 40 ms changes |
| `Touch.EdgeIsBacked` | device/touch/src/lib.rs:133-142 | Each edge is backed by samples of one unbroken level that span at least 40 ms |
| `Touch.EdgesAlternateAndAreApart` | device/touch/src/lib.rs:121-144 | Consecutive edges are of opposite kind and at least 40 ms apart |
| `Touch.PhasesReadGestures` | device/touch/src/lib.rs:146-208 | The phase machine computes the reading of the edge stream that the reference grammar gives, for any stream |
| `Touch.RecognitionIsReading` | device/touch/src/lib.rs:113-217 | In every run the gestures recognised, with their times, are the reading of the accepted edges: holds of at least 700 ms report min(up - down, 60000), a double tap needs a gap under 400 ms, else the press is a tap |
| `Touch.RateLimitMeaning` | device/touch/src/lib.rs:210-217 | A gesture is delivered iff it is a hold or at least 250 ms after every gesture delivered before it |
| `Touch.OnlyDoubleTapsAreSuppressed` | device/touch/src/lib.rs:200-217 | In no run with a nondecreasing clock is a tap or a hold lost to the rate limit |
| `Touch.SuppressedExactlyWhenTooSoon` | device/touch/src/lib.rs:146-217 | The exact fate of each recognised gesture of a run |
| `Touch.DoubleTapCanBeSuppressed` | device/touch/src/lib.rs:210-217 | A run, sample by sample, in which a double tap is lost: it completes 135 ms after a hold |
| `Touch.DeliveriesAreSpaced` | device/touch/src/lib.rs:210-217 | Taps and double taps come at least 250 ms after any delivery before them |
| `Touch.DeliveredAreTheFlagged` | device/touch/src/lib.rs:210-217 | What is delivered is what the rate limit passes, in order |
| `Touch.RunIsQuiet` | device/touch/src/lib.rs:171-208 | Each tap comes at least a whole double-tap window after the event before it |
| `Touch.PressAccounting` | device/touch/src/lib.rs:113-217 | Accepted down edges = holds + taps + 2 x double taps (delivered or not) + the press still open |
| `Touch.UnexpectedOnlyAfterBoot` | device/touch/src/lib.rs:166-197 | The branches for edges that should not happen are reached by at most the first release after contact at the first sample |
| `Touch.TouchClassifier.Debounce` | device/touch/src/lib.rs:121-144 | The debouncer's fields and edge after a sample |
| `Touch.TouchClassifier.OnPress` | device/touch/src/lib.rs:146-169 | Phase, limiter and gesture after a down edge |
| `Touch.TouchClassifier.OnRelease` | device/touch/src/lib.rs:171-198 | Phase, limiter and gesture after an up edge |
| `Touch.TouchClassifier.OnTick` | device/touch/src/lib.rs:200-208 | Phase, limiter and gesture after a sample without an edge |
| `Touch.TouchClassifier.EmitLimited` | device/touch/src/lib.rs:210-217 | The limiter's fields and verdict |
| `Touch.TouchClassifier.Update` | device/touch/src/lib.rs:113-119 | One sample through all three machines |
| `Touch.Classify` | device/src/bin/main.rs:406-427 | Over any finite run the sampling loop's output is what the rate limit leaves of the reading of the accepted edges |
| `UplinkWire.ReadDecimal` | device/touch/src/lib.rs:248-251 | Reading a printed number gives the number, whatever follows |
| `UplinkWire.ObjectParses` | host/transport.py:63-68 | Every flat JSON object with members that are strings, integers, booleans or null, with any white space, is read back as its members (sections 2 to 7 of RFC 8259) |
| `UplinkWire.EmptyObjectParses` | host/transport.py:63-68 | So is the object without members |
| `UplinkWire.EveryFrameFits` | device/touch/src/lib.rs:238-254 | The frame of every gesture with a 32-bit duration fits in 96 bytes |
| `UplinkWire.FrameIsPrinted` | device/touch/src/lib.rs:243-252 | The frame literals are flat objects with the members the host asks for |
| `UplinkWire.GetIs` | host/transport.py:69-79 | The last member with a key is the one that counts |
| `UplinkWire.FrameOfExactly` | host/transport.py:69-85 | Which objects the host takes for a touch frame, and for which gesture, if and only if |
| `UplinkWire.FrameIsRead` | host/transport.py:47-85 | The host's check accepts every device frame as the gesture it was made from |
| `UplinkStream.Reader.ConsumeLines` | host/transport.py:271-279 | The while loop handles the complete lines of the buffer in order and keeps the rest unless it is over 256 bytes |
| `UplinkStream.Reader.HandleLine` | host/transport.py:281-292 | The sink gets the gesture of a good line and nothing of a bad one |
| `UplinkStream.Reader.OneTurn` | host/transport.py:215-244 | Buffer, attachment and sink after one turn of the read loop |
| `UplinkStream.Reader.Run` | host/transport.py:212-244 | The same over any run of turns |
| `UplinkStream.CutsDoNotMatter` | host/transport.py:228-244 | However a stream with no overlong complete line is cut, and with timeouts anywhere, exactly its complete lines are handled, whatever unfinished text follows them |
| `UplinkStream.NewConnectionStartsClean` | host/transport.py:217-230 | Nothing left over from an earlier socket reaches a new one's lines |
| `UplinkStream.UplinkRoundTrip` | host/transport.py:212-292 | For every list of gestures, every chunking and any earlier history, the sink gets exactly that list in that order |
| `UplinkStream.CutsNeverMatterExactlyForShortLines` | host/transport.py:228-279 | For every stream: every way of receiving it handles exactly its complete lines if and only if none of them is longer than 256 bytes |
| `UplinkStream.SomeCutAgreesExactlyUpToLongest` | host/transport.py:228-279 | For every stream: some way of receiving it handles exactly its complete lines if and only if none of them is longer than 511 bytes, a full buffer and a receive that ends it |
| `UplinkTrip.WrittenAreTheSent` | device/src/bin/main.rs:288-400 | The gestures written on a connection are exactly those with the fate of being sent on it, each once, in the order they were classified, all classified during it |
| `UplinkTrip.GesturesFit` | device/touch/src/lib.rs:146-217 | Every gesture the classifier hands out, over any samples, has a frame |
| `UplinkTrip.TouchToSink` | device/src/bin/main.rs:387-427 | From the pad to the host's sink: for any samples, any run of the firmware tasks, any connection and any receives of a beginning of its bytes on a new socket, the sink is called with a beginning of the list of the gestures sent on it, and with that whole list once its whole frames are in |
| `Downlink.ControlReader.TakeByte` | device/src/bin/main.rs:342-367 | Buffer, flag and handled frames after one byte |
| `Downlink.ControlReader.Take` | device/src/bin/main.rs:336-368 | The same after one read of any bytes |
| `Downlink.ReadControlStream` | device/src/bin/main.rs:328-369 | For every stream and every chunking, exactly the newline-terminated, CR-stripped lines of at most 256 bytes are handled, in order; overlong ones are skipped whole |
| `Downlink.EscapeIsUndone` | host/protocol.py:66-78 | Reading the escapes of a text as section 7 of RFC 8259 has them gives the text back, so no text ends its string early |
| `Downlink.LineFits` | host/protocol.py:66-78 | Every validated behavior makes a printable line of at most 160 bytes, escapes included |
| `Downlink.EveryFrameArrives` | host/transport.py:132-167 | Any interleaving of validated behaviors and keepalives, cut anyhow, is handled as exactly those frames in order with an empty one per keepalive |
| `DownlinkTrip.LineIsRead` | host/protocol.py:66-78 | The line of a command whose text needs no escapes is the flat object of its seven members |
| `DownlinkTrip.LineIsHandled` | device/src/behavior.rs:98-130 | The device acts on that line as the very command |
| `DownlinkTrip.DownlinkRoundTrip` | device/src/bin/main.rs:328-382 | Any interleaving of such behaviors and keepalives, in any chunking, makes the device act on exactly those behaviors in order |
| `Contract.ValidationIsSound` | host/protocol.py:110-186 | Whatever object validation lets through is a frame the device accepts, and an intent it returns is an allowed one |
| `Contract.AcceptedExactly` | host/protocol.py:110-204 | Which objects validation lets through, as a behavior and as a proposal, if and only if, and what of them it keeps |
| `Contract.CommandOfExactly` | host/protocol.py:119-150 | Which fields make which frame, if and only if; the mood is the animation's, whatever known mood the object names |
| `Contract.TextFieldExactly` | host/protocol.py:152-165 | Which text fields pass and what they come to, if and only if |
| `Contract.LowerAlphabet` | host/protocol.py:188-204 | Small letters stand for capitals and for the kelvin sign, and nothing else changes |
| `Contract.HintsAreRead` | host/protocol.py:170-204 | Which hints of a proposal are refused, and which intent and body state they come to, stripped and in lower case; a wrong state is dropped |
| `Contract.PayloadValidates` | host/protocol.py:66-78 | The object sent for a valid command validates to that command |
| `Contract.TablesAgree` | device/src/behavior.rs:140-156 | The device's mood table is the host's |
| `Contract.DeviceTakesIt` | device/src/behavior.rs:98-130 | The device takes a validated command as it is, text and duration included |
| `Contract.DeviceKeepsContract` | device/src/behavior.rs:98-130 | Any frame the device acts on keeps the mood table, the alert rule and the ranges, and it is rejected only for the reasons named |
| `Contract.ClampText` | device/src/behavior.rs:158-167 | The loop keeps the first 24 characters of the trimmed text, or none |
| `Contract.RustSpaces` | device/src/behavior.rs:158-167 | What trimming takes for white space |
| `Contract.FramesCover` | device/src/behavior.rs:90-96 | The frame count is the duration in frames, rounded up |
| `Body.BodyModel.Advance` | host/body.py:124-206 | The body after the forced changes, and the options offered |
| `Body.BodyModel.Resolve` | host/body.py:210-238 | The state settled on, the body after it, and the clamped behavior |
| `Body.BodyModel.SetState` | host/body.py:240-248 | Clocks restart exactly on a change of state |
| `Body.ClampFits` | host/body.py:387-417 | For any behavior the clamped one fits the state, is no alert outside awake, naps only on falling asleep, and stays valid; it keeps a pose that fits, with its text, and else is the sleepy one without |
| `Body.SinceIsStretchTime` | host/body.py:124-248 | The body's clock is the start of the present unbroken stretch of its state |
| `Body.SleepOnlyAfterDrowsing` | host/body.py:314-321 | Whatever is proposed, sleep is entered only after the configured seconds of unbroken drowsiness, with sleep pressure and nothing to wake for |
| `Body.ContactWakesGently` | host/body.py:293-303 | A touch or message takes a sleeper to awake within one tick iff the behavior is an alert |
| `Body.NapsLast` | host/body.py:304-312 | With no proposal and no alert a sleeper leaves sleep iff woken, or well rested without pressure, or past the minimum nap without pressure |
| `Body.SleepEndsExactly` | host/body.py:225-312 | The exact end of sleep, for every proposal and behavior: an alert ends it; while the nap is due (no wake trigger, not well rested without pressure, and pressure or less than the minimum nap) else only a proposal of drowsy does; when it is not due, everything but a proposal to sleep on, and that too if well rested with no pressure and no trigger |
| `Body.DueNapLastsExactly` | host/body.py:225-312 | Over any run in which the nap stays due the body sleeps throughout if and only if there is no alert and no proposal of drowsy |
| `Body.ProposalsCanCutANapShort` | host/body.py:312-317 | The minimum nap does not bind a proposal of drowsy: with no wake trigger and no alert, drowsy and then awake ends any sleep in two ticks |
| `Body.RestedNeverStaysAsleep` | host/body.py:304-308 | Well rested, with no pressure and nothing to wake it, no proposal keeps a body asleep |
| `Body.OneNapPerSleep` | host/body.py:393-402 | In a stretch of sleep exactly the tick that entered it sends a nap |
| `Body.AtMostOneNap` | host/body.py:393-402 | Within one stretch of sleep no tick after the first sends a nap |
| `Body.StaysAsleep` | host/body.py:293-312 | With sleep pressure, nothing to wake for, no proposal and no alert, a sleeper sleeps on through any run |
| `Body.FallsAsleep` | host/body.py:314-336 | Left alone like that, a settled awake body turns drowsy and is asleep after the first tick that comes the drowsy time later, however the ticks are spaced |
| `Body.FromAwake` | host/body.py:314-336 | The exact step from awake: to drowsy if and only if the tick is tiring, without alert, and drowsy is proposed or the body has settled and awake is not proposed; else awake |
| `Body.FromDrowsy` | host/body.py:314-321 | The exact step from drowsy, for every proposal and behavior |
| `Body.FromSleeping` | host/body.py:293-312 | What follows a sleep: awake, drowsy or waking, exactly when |
| `Body.FromWaking` | host/body.py:322-330 | The exact step from waking, before and after its seconds are over |
| `Body.WhatPresses` | host/body.py:153-175 | What counts as pressure to sleep and as a wake trigger |
| `Body.NightIsAnArc` | host/body.py:250-256 | The night is the hours round the clock from its start to its end |
| `Body.TargetIsOffered` | host/body.py:225-231 | The state settled on is one of those offered, or awake for an alert |
| `Body.WakingEnds` | host/body.py:140-146 | Waking ends with the first tick that comes the configured seconds after it began |
| `Frames.FallbackIsValid` | host/pet_loop.py:628-652 | The fallback behaviors are valid frames |
| `Frames.NoveltyAvoidsRepeats` | host/pet_loop.py:563-606 | Novelty repeats no recent phrase, and a recent animation only for an alert or when every suggestion is recent; it changes a pose only to a suggested one and drops a text only if it is recent or the new pose is an idle one, and keeps a valid frame valid |
| `Frames.AdaptedIsValid` | host/pet_loop.py:850-876 | Loop adaptation changes only the duration and keeps it in range: a walk lasts 6.5 s at least, an idle pose at most 3 s and half the interval, but a second at least, and no other pose changes |
| `Frames.PetState.ApplyNovelty` | host/pet_loop.py:563-606 | The loop over the suggestions finds the first one not used lately |
| `Frames.PetState.BurnInGuardrail` | host/pet_loop.py:753-785 | The frame and the burn-in clock after the guard |
| `Frames.PetState.Observe` | host/state.py:96-105 | The recent phrases and animations after a frame |
| `Frames.MemoryIsTheLog` | host/state.py:96-105 | In every run novelty goes by the last five poses and the last five phrases that were sent |
| `Frames.NoPhraseIsRepeated` | host/pet_loop.py:563-606 | In every run a frame's text is the answer's or none, and never one of the last five phrases sent |
| `Frames.BlinksAreNeeded` | host/pet_loop.py:753-785 | In every run the guard puts the blink in a frame's place only if the picture stands and has stood for 150 s |
| `Frames.SleepyAgrees` | host/pet_loop.py:137-250 | The body is sleepy exactly when the feelings are |
| `Frames.RunPetLoop` | host/pet_loop.py:137-250 | Every tick is novelty, body, adaptation and burn-in guard in this order, on what the ticks before it left. Over every run of inputs and validated proposals: each frame passes the device's checks and suits the body's state, a nap is sent only on falling asleep, and no still pose but the blink is sent once it has stood for 150 s; and the guard puts the blink in a frame's place only if the picture stands and has stood that long |
| `Waiting.BeliefIsFresh` | host/pet_loop.py:138-267 | With no new posts the view the loop goes by is true through the expiry announced when it was read, its records are not the fresh ones at any time after that, and the stretch after it lasts at most all the time not spent waiting before the next read (the rest of the tick and the keepalives between the waits) plus one second |
| `Waiting.BeliefCanBeStale` | host/pet_loop.py:262-267 | That bound is reached for every length of the time not spent waiting |
| `Waiting.RestStretchesTheWait` | host/pet_loop.py:788-801 | What stretches the interval between idle ticks and by how much, what shortens it, and that nothing else changes it |
| `Waiting.WaitsAreBounded` | host/pet_loop.py:788-801 | Every wait is positive and, for an interval of at most a minute, at most a minute |
| `Waiting.NextEvent` | host/pet_loop.py:718-746 | A queued event is taken at once; else the waits are as WaitedFor says, with and without a queue, with and without a connection: with one, none is over fifteen seconds and a keepalive goes out between any two, without one there is a single wait |
| `Waiting.WaitsAddUp` | host/pet_loop.py:731-741 | The waits add up to what was asked for, unless an event ends them early |
| `AffectModel.Affect.Advance` | host/affect.py:103-147 | All feelings after an advance |
| `AffectModel.Affect.AdvanceLoneliness` | host/affect.py:149-169 | Loneliness after an advance |
| `AffectModel.Affect.RegisterPraise` | host/affect.py:181-186 | All feelings after praise |
| `AffectModel.Affect.RegisterPlayInvite` | host/affect.py:256-263 | All feelings after a play invite |
| `AffectModel.TicksDoNotMatter` | host/affect.py:103-147 | Up to 900 s of unchanged presence, cut into ticks in any way, leaves social, play, rest, stimulation, energy, sleepiness and affection as one advance does |
| `AffectModel.DrivesByTheClock` | host/affect.py:121-147 | Over any ticks within 900 s, how much each drive loses or gains a minute with the owner there, ignoring or away, and where it stops |
| `AffectModel.LongGapsAreCut` | host/affect.py:125 | A longer gap counts as 900 s |
| `AffectModel.TicksAgreeExactlyUpToCatchUp` | host/affect.py:121-147 | For every Shiro and every cutting the drives agree with one advance if and only if the time is at most 900 s |
| `AffectModel.LonelinessRisesSlowly` | host/affect.py:149-169 | Over any run of advances loneliness rises by at most 2.12 per elapsed minute |
| `AffectModel.LonelinessBoundIsTight` | host/affect.py:161-169 | That bound is reached |
| `AffectModel.AbsenceIsNotRejection` | host/affect.py:157-160 | Over any run spent away loneliness does not rise |
| `AffectModel.LonelinessByPresence` | host/affect.py:149-169 | How time moves loneliness in an absence, in company, for a pet left alone and for one that is ignored |
| `AffectModel.FrustrationByPresence` | host/affect.py:139-141 | How time and the owner's focus move frustration |
| `AffectModel.BondWearsInDeepLoneliness` | host/affect.py:143-147 | An advance leaves trust alone, and wears the bond only if loneliness is over 60 after it |
| `AffectModel.WhatEventsAreWorth` | host/affect.py:171-186 | What praise and a play invite change, their steps taken together |
| `AffectModel.StatesInOrder` | host/affect.py:298-315 | When each of the six overall states holds |
| `AffectModel.SuggestionsFit` | host/affect.py:327-331 | Which animations are suggested in which state, and to a tired Shiro |
| `AffectModel.MakingUp` | host/affect.py:173-186 | From every state in range three praises and two play invites, or more, lead to CONTENT |
| `AffectModel.MakingUpTakesThat` | host/affect.py:298-315 | Fewer of either do not, for the worst state |
| `Presence.SignalMailbox.SetActivity` | host/presence.py:156-171 | The stored post, and whether the wake-up label changed |
| `Presence.SignalMailbox.SetPresence` | host/presence.py:173-188 | The stored post of that source, the others untouched, and whether the label changed |
| `Presence.SignalMailbox.Get` | host/presence.py:190-207 | The fused view, and the contents pruned |
| `Presence.SignalMailbox.FusedPresent` | host/presence.py:264-281 | Any fresh absence wins, else any fresh presence, else nothing is known |
| `Presence.SignalMailbox.NextExpiryAt` | host/presence.py:209-231 | The earliest expiry among the fresh records |
| `Presence.AbsenceWins` | host/presence.py:264-281 | The sources come to absent exactly if one that has not expired says so, and to nothing exactly if all have expired |
| `Presence.PruneKeepsExactly` | host/presence.py:233-238 | Pruning keeps exactly what has not expired |
| `Presence.ClassifyExactly` | host/presence.py:344-373 | Which class the tracker comes to, if and only if |
| `Presence.FreshUntilExpiry` | host/presence.py:209-231 | With no new posts the same records are fresh at a later time iff it is no later than the announced expiry |
| `Presence.ViewIsStable` | host/presence.py:190-231 | So the view and the label are the same through the announced expiry |
| `Presence.PruneIsInvisible` | host/presence.py:233-238 | No later read, label or expiry can tell whether records were pruned |
| `Presence.LabelAgainstTracker` | host/presence.py:240-262 | The wake-up label says present iff the tracker would, but for a record that carries only a foreground application |
| `Presence.QuietPostKeepsClass` | host/presence.py:344-373 | When a post that changes no label leaves the tracker's class alone: exactly when it does not turn a foreground-only record into presence or back |
| `Presence.QuietPostCanChangeClass` | host/presence.py:260-261 | A post for which it does change |
| `Presence.PresenceTracker.NoteInteraction` | host/presence.py:299-300 | A direct interaction is remembered with its time |
| `Presence.PresenceTracker.Update` | host/presence.py:302-342 | The tracker's memory and report after an update |
| `Presence.SecondsAreStretches` | host/presence.py:319-327 | The reported seconds are those since the unbroken stretch of that class began |
| `Presence.ReturnMeansLongAbsence` | host/presence.py:306-311 | A return is reported exactly when an unbroken absence of at least the configured length ends |
| `Presence.LeavingIsReported` | host/presence.py:313-317 | A leaving is reported exactly at the step that begins an absence after a step that was none |
| `Presence.PressureMeansLongFocus` | host/presence.py:375-386 | Focus pressure is in 0..1, positive iff ignored with one application in front without a break for longer than the threshold, and then grows evenly to 1 at twice the threshold |

## Left out

- `Connection`: join time-outs, the retry count of a connect and the text of errors; a connect just succeeds or fails.
- `Connection.CallsDoNotInterleave`: does not claim that whole frames stay intact after a failed sendall, because the send lock is released before the socket is dropped and another call may still write to it.
- `ConnectionCalls.EveryCallIsAnswered`: whether an ended send returned or raised is told by what it did, not by a result value.
- `PresenceWake`: the queue's own locking, and what a presence item says; only that it is there.
- `UplinkQueue`: a gesture dequeued when the reader half ends first may vanish, since `select` cancels the pending write; no delivery is claimed for it.
- `ChipObject.Chip.NextReadCount`: pin levels are a parameter; when reads are started and stopped is not modelled, deliveries are any that are no longer than what is pending.
- Reset pulses, SPI errors and the single-ownership guard of the framebuffer.
- `SpriteCell.EncodeSprite`: the statistic of visible pixels and the generated Rust text.
- `SpriteCodec.GreedyIsShortest`: compares with streams whose runs add up to the pixel count; streams that leave out trailing transparent pixels can be shorter.
- `Png`: the CRC polynomial and zlib, which are parameters; the one thing assumed of them is that inflating undoes deflating, where it is stated.
- `Png.ReadRgbaPng`: exceptions become an error value; a header chunk of the wrong size and a compressed stream that does not inflate are errors too.
- `UplinkWire.ObjectParses`: flat objects of strings without escapes, integers, booleans and null; a line with escapes, fractions, lists or nested objects is refused by the model, where json.loads may accept it and the check that follows may even pass it.
- `UplinkStream.Reader`: the frame check is a parameter of the class, so the buffer's theorems hold for any; exceptions of the sink are swallowed in the source and have no effect here.
- `DownlinkTrip.DownlinkRoundTrip`: texts with a quote or a backslash, whose escapes the device's JSON decoder treats in its own way; their frames arrive whole (`Downlink.EveryFrameArrives`), what the decoder makes of them is not modelled.
- `Contract.ValidationIsSound`: the text of the error messages; lower-casing is modelled only where it can give ASCII, since all allowed words are ASCII.
- `Body`: persistence rows, the late-night label and the lists of animations offered to the model, which bind nothing.
- `Frames.RunPetLoop`: the touch acknowledgement sent before a proposal (host/pet_loop.py 188-196) is not clamped to the body's state in the source and is no part of the claim; prompts, memory and logging are left out.
- `AffectModel`: the remaining owner events and the effect of behaviors, which are of the same shape as those modelled.
- `Presence.SignalMailbox`: its lock; each method is one atomic step.
- Wi-Fi, HTTP, the model client, SQLite memory and reflection, bubbles, sine offsets, motion sheets and the Bluetooth helper: foreign effects or simple members.
