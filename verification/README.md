# Proofs about the station's core

This project models the parts of the video station that carry the most state and proves what they promise. The files
verify together: `dafny verify dfyconfig.toml`.

**Display output engine** (`Display*.dfy`). `DisplayModel` gives each critical section of `display/display.cpp` as a
function on values, `DisplayEngine` the same operations as a class with the engine's fields, loops and lists, proved equal
to those functions. `DisplaySystem` puts the renderer thread, the event thread, the kernel's answers and the scan-out
hardware around it; a step is one critical section, one answer or one move of the hardware. `DisplayTheorems` holds in every
run of any length, with any number of outputs, and `DisplayProgress` takes a frame through it to the screen. Two assumptions about the environment are conjuncts of `Enabled`: a slot is
not torn down while the kernel has not answered a commit of the renderer on it, and no flip report of an earlier
configuration arrives once the slot has been configured again. `DisplayWitness` has a run without each of them that hands
out the buffer on the screen. The code turns the output off before it takes the lock and destroys the ring under it
(display/display.cpp:740-777); the model does both when the lock is taken. A renderer's commit that the kernel answers
between the two so counts as one before the teardown, and one that is not answered then is what the first assumption
excludes. Two more conjuncts say what is brought up: the kernel hands out new descriptors, and a
connector is configured only if it has no output yet. The second is what `configure_all` checks; that it does is proved in
`DisplayRoles`, while in runs the different connectors of the outputs rest on it.

**Inflate, PNG and GIF** (`Bits`, `BitReversal`, `CanonicalCode`, `Huffman`, `Lz77`, `BitLevel`, `Inflate`,
`InflateBlock`, `InflateWitness`, `Png`, `Gif`, `GifCursor`). The decoders keep their tables, bit buffers and growing buffers. What is still to be read is one
natural number, its first bit the lowest, so that reading is halving and the zeros after the end come by themselves. The
specifications are independent of the code: the canonical code and the length/distance expansion of RFC 1951, the filters
of the PNG specification, the string table of GIF89a; each of them is also shown to undo an encoder.

**Audio** (`AudioProtocol`, `Playback`). The first is the request protocol between a caller, `set_udp_port` and the thread
of one output, as a step system, and the output's calls as a class. The second is the dispatcher that plays recorded sound.

**Phase loop** (`CameraClient`, `PhaseLoop`). A camera that applies a command or refuses it but whose answers can be lost,
the client with its two dialects, and the controller over real numbers.

**Smaller cores** (`Telemetry`, `LinkMonitor`, `Osd`). The log and its reader, the RTP accounting, glyphs and labels.

Clocks, memory, files, sockets, the kernel and the camera enter as parameters or as free choices (`*`).

What the proofs found where code and comments, or code and expectation, part:

* a flip report that reaches a torn-down slot is counted as a presented frame of the slot's next configuration;
* a commit that is accepted before a teardown but ends after it marks the next configuration as mode-set, so its first
  commit is made without a modeset (`DisplayWitness.ModesetIsSkipped`). In every run the first commit asks for a modeset
  unless exactly this has happened, with no failed bring-up since (`DisplayModeset.FirstCommitAsksForModeset`);
* with a ring of one buffer nothing can be acquired from the first confirmed flip until the teardown;
* the check for a premature end of inflate data counts the sixteen padding bits only, not the zero bits that
  `stbi__fill_bits` makes up: nine bits of a block are accepted from one byte (`InflateWitness`). A block lies within the
  input exactly if it is accepted and the buffer still holds all that is not input (`BitLevel.WithinInput`); the check is
  right where nothing is made up;
* GIF data of a compressor that goes on with a full table are decoded exactly if the decoder's table has room for an entry
  for each code but the first after every clear code, and refused otherwise, from 8188 codes on with four colours; a
  compressor that clears its table when the twelve bits are used up is always decoded;
* with two callers of one audio output a request can be lost: exactly by a blind write, one of another source by a call that
  found nothing to rebuild when it looked. With any number of callers there is none if no call writes between another call's
  look and its write;
* the frequency term of the phase loop comes to balance for configured parts above zero and below one; from one on it does
  not, as long as the band does not bind, because what is measured is two turns old;
* a session journal that could not be read is not read again until another one is opened or live sound is asked for, so the
  outputs can be silent where the rule over the disk of the moment says to play (`Playback.UnreadJournalStaysSilent`); they
  follow that rule exactly where the index in use asks for the same, and it is that of the disk exactly if it was just read
  or was so before;
* a telemetry instant less than a millisecond before the start of a log is accepted;
* packets out of order are counted as lost although they came.

## Model

| member | source | states |
|---|---|---|
| `DisplayModel.FirstFree` | display/display.cpp:500-516 | the free buffer handed out is the first one, and none is found only if none is free |
| `DisplayOwnership.ReleasedTakesOne` | display/display.cpp:460-472 | releasing a retired buffer takes the one with its descriptor off the list and nothing else |
| `DisplayModel.Drawn` | display/display.cpp:431-458 | the buffers a dying ring leaves behind are exactly those being drawn |
| `DisplayModel.PickCrtcIsComplete` | display/display.cpp:1199-1224 | a CRTC is found exactly if some encoder of the connector can use a free one; it is the first such CRTC of the first encoder that has any |
| `DisplayModel.FirstPlane` | display/display.cpp:1226-1258 | the plane chosen is the first free primary one for the CRTC |
| `DisplayModel.FreeSlot` | display/display.cpp:1070-1080 | the slot taken is the first that is not live, or a new one at the end |
| `DisplayModel.Best` | display/display.cpp:1398-1416 | the primary output is the live one of least rank, the lowest slot on ties, or none if none is live |
| `DisplayMode.Choose` | display/display.cpp:1090-1162 | the mode asked for wins whatever its size; otherwise the display's own choice, unless it is over the cap and some mode is not: then the largest and fastest that fits, the first on ties |
| `DisplayEngine.Engine.Acquire` | display/display.cpp:500-516 | the loop over the ring does what the model's `Acquire` says, to all fields |
| `DisplayEngine.Engine.ReleaseRetired` | display/display.cpp:460-472 | the search of the retired list in place is the model's release |
| `DisplayEngine.Engine.Queue` | display/display.cpp:518-553 | queuing a target, stale or current, is the model's `Queue` |
| `DisplayEngine.Engine.BeginCommit` | display/display.cpp:561-577 | the first critical section of `try_commit` |
| `DisplayEngine.Engine.EndCommit` | display/display.cpp:577-591 | the second critical section, after acceptance and after refusal |
| `DisplayEngine.Engine.OnFlip` | display/display.cpp:660-731 | a flip report moves the indices and slots as the model says, and tells whether the output is primary |
| `DisplayEngine.Engine.DestroyRing` | display/display.cpp:431-458 | buffers being drawn are retired in order, the others freed and counted |
| `DisplayEngine.Engine.Teardown` | display/display.cpp:740-792 | tearing an output down, to all fields |
| `DisplayEngine.Engine.CreateRing` | display/display.cpp:365-411 | the ring there is goes first; then all buffers or none, with the count of live buffers |
| `DisplayEngine.Engine.AssignRoles` | display/display.cpp:1398-1422 | the loops mark exactly the best output |
| `DisplayEngine.Engine.ConfigureOne` | display/display.cpp:1069-1396 | slot, CRTC and plane search and bring-up are the model's `Configure` |
| `DisplayEngine.Engine.LoseGone` | display/display.cpp:993-1014 | exactly the live outputs whose connector has gone are torn down |
| `DisplayEngine.Engine.ConfigureAll` | display/display.cpp:1016-1067 | the loop is the model's `AddFound`, which brings up every connected connector that is due and without an output (`DisplayRoles.PassBringsUp`) |
| `DisplayEngine.Engine.HandleHotplug` | display/display.cpp:888-913 | a whole hot-plug pass, with roles assigned only after a change; what it leaves is stated by `DisplayRoles.PassSettles` and `DisplayRoles.PassBringsUp` |
| `DisplayTheorems.RunKeepsInv` | display/display.cpp:500-792 | in every run the invariants of scan-out, ownership and roles hold |
| `DisplayTheorems.ScannedIsNeverHandedOut` | display/display.cpp:500-731 | in every run a buffer on the screen or about to be is marked Current or InFlight, is neither handed out nor held, indices and slots agree, and no commit is issued while a flip is outstanding |
| `DisplayTheorems.BuffersAreConserved` | display/display.cpp:365-471 | in every run live buffers are those of the rings and the retired list, which holds exactly the buffers of held targets whose ring is gone; a held current target still has its buffer |
| `DisplayTheorems.StaleTargetFreesItsOwn` | display/display.cpp:518-553 | a target of an older generation enters no ring and frees its own buffer only |
| `DisplayTheorems.FramesInOrder` | display/display.cpp:518-591 | frames are shown in the order of acceptance, none twice; accepted frames are shown, dropped, refused, pending or in flight; the statistics agree exactly if no late report came |
| `DisplayTheorems.ReportedFrameIsScanned` | display/display.cpp:660-715 | the frame a flip reports is the one the hardware scans |
| `DisplayTheorems.OutputsAreSettled` | display/display.cpp:993-1082 | live outputs have different connectors, CRTCs and planes, and outside a pass exactly the best one is primary |
| `DisplayTheorems.LiveOutputStays` | display/display.cpp:1069-1082 | a live output keeps slot, hardware, generation and ring until it is torn down |
| `DisplayTheorems.RingsHaveDepth` | display/display.cpp:365-411 | every live output has a ring of the configured depth |
| `DisplayTheorems.AcquireFailsOnlyIfBusy` | display/display.cpp:500-591 | with two buffers or more and no thread in a commit, acquiring fails only if the renderer holds a buffer or a flip is outstanding |
| `DisplayTheorems.OneBufferStarves` | display/display.cpp:500-731 | with one buffer every acquisition after the first confirmed flip fails, in every run, until the output is torn down |
| `DisplayProgress.FrameGetsThrough` | display/display.cpp:518-731 | in every run a current target held while no flip is outstanding can be presented, and if the kernel accepts the commit its frame is on the screen after the next vertical blank; only a frame that still waited is dropped |
| `DisplayWitness.LateReportBreaksIt` | display/display.cpp:660-731 | a run without the assumption on late reports in which the buffer on the screen is handed out |
| `DisplayWitness.TeardownInsideCommitBreaksIt` | display/display.cpp:561-591 | a run without the assumption on teardowns in which the buffer on the screen is handed out |
| `DisplayWitness.LateReportIsCounted` | display/display.cpp:660-731 | a run in which a late report is counted as presented in the next configuration |
| `DisplayWitness.ModesetIsSkipped` | display/display.cpp:577-590 | a run in which a new output counts as mode-set although no commit was made to it; `DisplayModeset.SkippedExactly` says when |
| `DisplayModeset.MarkedSinceItsCommit` | display/display.cpp:577-590 | in every run an output is marked as mode-set exactly if an accepted commit of its slot has ended since a teardown or a failed bring-up last cleared it |
| `DisplayModeset.SkippedExactly` | display/display.cpp:577-590 | in every run, before the hardware has taken a frame of a configuration, its output is marked exactly if the slot was torn down under an accepted commit of the renderer that has ended since, with nothing clearing the slot after that |
| `DisplayModeset.FirstCommitAsksForModeset` | display/display.cpp:561-577 | a commit made before any frame of its configuration was shown asks for a modeset exactly unless that has happened |
| `DisplayModeset.MarkedHasFrames` | display/display.cpp:577-590 | where no slot was torn down under an accepted commit, a marked output has had a frame accepted |
| `DisplayRoles.PassSettles` | display/display.cpp:888-913 | after one hot-plug pass the outputs are disjoint and ranked, and those whose connector is still there keep their slots, whatever the connectors do, provided the kernel lists each connector once |
| `DisplayRoles.PassesSettle` | display/display.cpp:888-913 | after every sequence of such passes they are disjoint and ranked |
| `DisplayRoles.ConfigureServes` | display/display.cpp:1195-1396 | a connector gets an output exactly if a free CRTC, a free primary plane on it, a blob and all buffers are to be had; the output has the connector's id and type, that hardware and those buffers |
| `DisplayRoles.PassBringsUp` | display/display.cpp:1016-1067 | after a pass every connector that is listed, due, found, without an output and served by the kernel has a live output of its own id and type; every live output was there before and is still connected, or is one of those |
| `DisplayRoles.OthersStayDark` | display/display.cpp:1016-1067 | a listed connector that is not due, not found, in use or refused gets no new output |
| `DisplayRoles.HdmiComesFirst` | display/display.cpp:221-229 | the primary output is an HDMI one if any is live, else a DisplayPort one if any is, and the first among those |
| `BitReversal.SwapsReverse` | osd/stb_image.h:4107-4114 | the four masked swaps read sixteen bits in reverse order |
| `Huffman.ReverseIsReading` | osd/stb_image.h:4116-4122 | reversing the low bits reads them as a codeword, first bit on top |
| `CanonicalCode.PrefixFree` | osd/stb_image.h:4131-4148 | at most one codeword of the canonical code comes next |
| `CanonicalCode.MatchExists` | osd/stb_image.h:4131-4148 | one comes next exactly if the reading is below the bound of the greatest length |
| `CanonicalCode.PlacesDistinct` | osd/stb_image.h:4149-4156 | sorted by length and symbol, no two symbols share a place and places fit the tables |
| `CanonicalCode.FitsIsKraft` | osd/stb_image.h:4133-4147 | a list of code lengths fits exactly if it meets Kraft's inequality |
| `Huffman.Table.Build` | osd/stb_image.h:4124-4169 | the builder accepts exactly the lists that meet Kraft's inequality, and then all tables are those of the canonical code |
| `Huffman.CountSizes` | osd/stb_image.h:4129-4134 | how many symbols have each length |
| `Huffman.Table.AssignCodes` | osd/stb_image.h:4138-4151 | first codes, first symbols and shifted bounds of every length, refused exactly if some length does not fit |
| `Huffman.Table.PlaceSymbol` | osd/stb_image.h:4153-4158 | a symbol enters the slow tables at its place and leaves the others |
| `Huffman.Table.SpeedSymbol` | osd/stb_image.h:4159-4165 | a short symbol enters every fast position that starts with its codeword, and no other |
| `Huffman.FastFound` | osd/stb_image.h:4262-4268 | a fast entry names the codeword that comes next; an empty one means that none of nine bits or fewer does |
| `Huffman.SlowFound` | osd/stb_image.h:4224-4240 | the place the slow path computes is that of the codeword that comes next |
| `BitReader.Reader.FillBits` | osd/stb_image.h:4202-4212 | a refill leaves what is ahead unchanged and more than 24 bits in the buffer, and makes up zeros exactly where bytes are wanting |
| `BitReader.Reader.Receive` | osd/stb_image.h:4214-4222 | the next bits as a number, and exactly those are gone |
| `BitReader.Reader.Need16` | osd/stb_image.h:4243-4261 | at least sixteen bits, padding the end once, refused exactly when the padding is running out |
| `BitReader.Reader.DecodeSlow` | osd/stb_image.h:4224-4241 | the slow path returns the symbol of the codeword that comes next, takes exactly its bits, and fails exactly if there is none |
| `BitReader.Reader.Decode` | osd/stb_image.h:4243-4271 | so does decoding by either path, but for the refusal at the end of the input |
| `Lz77.RepeatIsPeriodic` | osd/stb_image.h:4348-4354 | a copy keeps the output and repeats it with the period of the distance, also where it overlaps itself |
| `Lz77.OneReading` | osd/stb_image.h:4309-4357 | a block has one reading |
| `Lz77.TokenRoundTrip` | osd/stb_image.h:4312-4342 | a literal or copy written by the codes is read back, with what follows |
| `Lz77.BlockRoundTrip` | osd/stb_image.h:4309-4357 | every block written is read back |
| `Lz77.EveryCopyHasSymbols` | osd/stb_image.h:4295-4307 | the tables of lengths and distances leave no gap from 3 to 258 and from 1 to 32768 |
| `Lz77.LengthsOfTheStandard` | osd/stb_image.h:4295-4300 | the lengths and extra bits of section 3.2.5 of RFC 1951 as arithmetic, with 258 and no extra bits for the last symbol |
| `Lz77.DistancesOfTheStandard` | osd/stb_image.h:4302-4307 | so the distances |
| `InflateBlock.Inflater.Grow` | osd/stb_image.h:4273-4293 | the buffer grows exactly if it may, doubling comes to hold what is needed within 32 bits and the memory is granted; it keeps what it holds, or is left alone |
| `InflateBlock.Inflater.CopyRun` | osd/stb_image.h:4348-4354 | both copy loops give the byte-by-byte repetition, within the buffer |
| `InflateBlock.ReadElement` | osd/stb_image.h:4312-4341 | one turn reads the element that comes next, and exactly its bits |
| `InflateBlock.Inflater.Turn` | osd/stb_image.h:4311-4356 | one turn of the loop appends what its element stands for, or says truly what is wrong with it |
| `InflateBlock.Inflater.ParseBlock` | osd/stb_image.h:4309-4357 | success means: exactly the bits of a block were taken and the output is the old output and its expansion; which outcome there is follows from the element at which it stopped and from how full the buffer was, the refusal of a premature end exactly where the padding has been used; bits past the end were taken exactly if the buffer does not cover what is not input; the loop ends |
| `InflateBlock.Inflater.AcceptedExactlyInTime` | osd/stb_image.h:4309-4357 | for every block, whether it is accepted can be told beforehand from the widths of its parts: unless room is wanting, exactly if the decoder reaches its end without having used the padding |
| `BitLevel.WithinInput` | osd/stb_image.h:4243-4332 | a block lies within the input exactly if it is accepted and the buffer still holds all that is not input; so the check for a premature end is right for every block where nothing is made up |
| `InflateWitness.PrematureEndIsAccepted` | osd/stb_image.h:4202-4222 | the decoder accepts a block of nine bits from an input of eight |
| `InflateBlock.Inflater.OnlyRoomIsWanting` | osd/stb_image.h:4309-4357 | a well-formed block within the input can fail only for want of room: neither when the buffer is large enough, nor when it can grow to what is needed and is granted the memory |
| `Png.PaethIsThePredictor` | osd/stb_image.h:4657-4668 | the rewritten predictor is that of the specification |
| `Png.PaethIsClosest` | osd/stb_image.h:4657-4668 | the predictor of the specification is the neighbour closest to the sum of two less the third, in the order of the specification on ties |
| `Png.RowRoundTrip` | osd/stb_image.h:4759-4785 | restoring a filtered row gives the row |
| `Png.ImageRoundTrip` | osd/stb_image.h:4738-4787 | restoring an image gives it back for every choice of filters |
| `Png.UndoneIsRestored` | osd/stb_image.h:4759-4782 | the filters of the code are those of the specification |
| `Png.FirstRowIsRestored` | osd/stb_image.h:4648-4654 | the first row's filters do over any bytes what the five filters do over zeros |
| `Png.UnfilterRow` | osd/stb_image.h:4755-4785 | a row undone in place, over the other row buffer |
| `Png.PixelsAreOpaque` | osd/stb_image.h:4675-4693 | added alpha is opaque and the channels are kept |
| `Png.PutRow` | osd/stb_image.h:4822-4826 | a row's pixels in their place, copied or widened, and nothing before it changed |
| `Png.Scanline` | osd/stb_image.h:4737-4752 | a filter type above 4 is refused, else the row is the specification's |
| `Png.SizesMean` | osd/stb_image.h:4716-4719 | the size checks refuse exactly what does not fit an int |
| `Png.CreateImage` | osd/stb_image.h:4696-4842 | the image is the pixels of the restored rows; a bad filter or short input is named where it is |
| `Png.DecodingInvertsFiltering` | osd/stb_image.h:4696-4842 | decoding the scanlines of an image, however filtered and whatever follows, gives its pixels |
| `Lzw.PartDecoded` | osd/stb_image.h:6744-6768 | a decompressor one entry behind the compressor decodes each code for which it has room, also one that names the entry just being added |
| `Lzw.StaysWideEnough` | osd/stb_image.h:6763-6766 | codes are widened before the table outgrows them |
| `Lzw.WidthAtIsLeast` | osd/stb_image.h:6763-6766 | the width of code k after a clear code is the least one, from the first width to twelve bits, that is enough for the table |
| `Lzw.WidthsOfARaster` | osd/stb_image.h:6763-6766 | after any codes of any raster the width is the least one that has a code for the next entry, no more and no less |
| `Lzw.CompressedDataDecode` | osd/stb_image.h:6691-6774 | for all compressed data of twelve-bit codes, cut into any number of segments with a clear code before each, and packed with the widths of the compressor: they decode to the data exactly if the table has room in every segment for an entry for each code but the first, and are refused as a whole otherwise |
| `Lzw.ClearedInTimeDecodes` | osd/stb_image.h:6691-6774 | segments of at most 4096 codes, as of a compressor that clears its table when the twelve bits are used up, always decode to the data |
| `Lzw.RefusedWhenFull` | osd/stb_image.h:6749-6753 | the code that is refused is the one for which there is no room |
| `Lzw.OneCodeTooMany` | osd/stb_image.h:6749-6753 | of four colours, any number of codes of one colour is decoded up to 8187 and refused from 8188 on |
| `Gif.Raster.OutCode` | osd/stb_image.h:6654-6689 | the recursion ends and draws exactly the string of the code, each byte in the next place |
| `Gif.Raster.AddEntry` | osd/stb_image.h:6749-6757 | the new chain stands for the string before and the first byte of its own |
| `Gif.Raster.Clear` | osd/stb_image.h:6733-6738 | a clear code brings the first table back |
| `Gif.Raster.Code` | osd/stb_image.h:6744-6771 | one code changes table, width and output as the specification says, and fails exactly when it does |
| `Gif.Raster.Handle` | osd/stb_image.h:6733-6771 | so does one code of any kind |
| `Gif.ProcessRaster` | osd/stb_image.h:6691-6774 | for every input the indices drawn are those the specification gives for the bits of its sub-blocks, and each is drawn in its place; all table accesses are in bounds |
| `Gif.RasterRoundTrip` | osd/stb_image.h:6691-6774 | compressed data in sub-blocks, wherever they are cut, are shown: from the bytes of a raster to the indices, or refused for want of room |
| `GifCursor.EveryRowOnce` | osd/stb_image.h:6677-6688 | plain or interlaced, every row of the frame comes exactly once |
| `GifCursor.RowsComeInPasses` | osd/stb_image.h:6677-6688 | interlaced rows come in the four passes of Appendix E of GIF89a and from the top in each, others from the top |
| `GifCursor.SpotsDistinct` | osd/stb_image.h:6664-6688 | the first width times height pixels fill the frame, each in a place of its own, and later ones have none |
| `GifCursor.Cursor.Next` | osd/stb_image.h:6664-6688 | the cursor visits the columns of a row and then the next row of that order |
| `GifCursor.Cursor.Draw` | osd/stb_image.h:6664-6688 | a pixel goes to the place of its number and changes no other |
| `GifCursor.Cursor.PixelInPlace` | osd/stb_image.h:6664-6688 | of the pixels drawn, those below width times height stand each in its place, in row `Order(..)[i / w]` and column `i % w` of the frame, and the others have none |
| `AudioProtocol.NoLostRequest` | audio/audio_out.cpp:232-374 | in every run, when nobody is calling and the flag is down, the output works on the latest source, path and port: it waits only for silence and has a pipeline only for anything else |
| `AudioProtocol.PassFollows` | audio/audio_out.cpp:322-334 | one pass more, and a file's seek and pause are the latest |
| `AudioProtocol.FollowsWithoutBlindWrites` | audio/audio_out.cpp:232-457 | in every run of any number of callers without a blind write, when nobody is calling and the flag is down, the output works on what was written last, waiting only for silence |
| `AudioProtocol.BlindWriteIsLost` | audio/audio_out.cpp:420-457 | the call that ends beside a settled output leaves it on the wrong source exactly if its write was blind |
| `AudioProtocol.UndisturbedIsNotBlind` | audio/audio_out.cpp:420-457 | no write is blind in a run in which no call writes between another call's look and its write |
| `AudioProtocol.CatchesUp` | audio/audio_out.cpp:240-366 | once nobody calls, and if every pipeline starts, the thread needs at most nine steps to settle: it plays unless silence was asked for, live sound from the present port, and after one pass more a file at the position and pause asked for |
| `AudioProtocol.RebuildsExactly` | audio/audio_out.cpp:420-457 | a call that changes something rebuilds exactly if it asks for another source or file; one that skips would change nothing |
| `AudioProtocol.TwoCallersLoseARequest` | audio/audio_out.cpp:420-431 | a run of two callers that loses a request |
| `AudioOutput.Output.PlayFile` | audio/audio_out.cpp:420-431 | what a call asks for, and the flag raised exactly if source or file are others than before |
| `AudioOutput.Output.SeekFile` | audio/audio_out.cpp:433-436 | a seek is a new position and generation |
| `AudioOutput.Output.PauseFile` | audio/audio_out.cpp:438-443 | the shortcut for an unchanged pause loses nothing |
| `AudioOutput.Output.GoLive` | audio/audio_out.cpp:445-450 | the shortcut for a live source loses nothing |
| `AudioOutput.Output.GoSilent` | audio/audio_out.cpp:452-457 | the shortcut for a silent source loses nothing |
| `AudioOutput.Output.SetUdpPort` | audio/audio_out.cpp:395-402 | the port is stored and the flag raised only for the live source |
| `AudioOutput.Output.TakeSnapshot` | audio/audio_out.cpp:242-248 | the flag goes down before the want is read |
| `AudioOutput.Output.Pass` | audio/audio_out.cpp:322-334 | one pass over a live pipeline is that of the step system |
| `Playback.CoveringIsFirst` | audio/playback_audio.cpp:76-83 | the file chosen is the first of the channel that covers the instant |
| `Playback.OffsetIsNotNegative` | audio/playback_audio.cpp:77-86 | a file is never entered before its start |
| `Playback.RuleMeans` | audio/playback_audio.cpp:56-92 | the rule in terms of the session: which file plays, where in it, and when it stands still; otherwise silence or live sound |
| `Playback.Dispatcher.AllLive` | audio/playback_audio.cpp:43-48 | every output is asked for live sound and the session forgotten |
| `Playback.Dispatcher.AllSilent` | audio/playback_audio.cpp:50-54 | every output is asked to be silent |
| `Playback.Dispatcher.PlayAll` | audio/playback_audio.cpp:89-98 | every output starts the file at the offset |
| `Playback.Dispatcher.Correct` | audio/playback_audio.cpp:100-110 | pauses follow the player, and positions are corrected exactly where due, at least the cooldown after the last placing |
| `Playback.Dispatcher.CorrectedMeans` | audio/playback_audio.cpp:100-110 | afterwards an output that plays at a known position and was not placed too recently is no further off than allowed, and it is moved only if it was |
| `Playback.Dispatcher.Step` | audio/playback_audio.cpp:56-111 | after every step all outputs are asked for what the stateless rule says of the index in use; the journal is read exactly when it has changed or is live and old; the index in use is that of the disk exactly if it was just read or was so before, and the outputs follow the rule over the disk exactly if the index in use asks for the same; over an unchanging disk the caches cannot be seen |
| `Playback.UnreadJournalStaysSilent` | audio/playback_audio.cpp:62-75 | two steps after which an output is silent where the rule over the disk says to play |
| `CameraClient.CameraApi.SetPhase` | control/camera_api.cpp:248-271 | what a reply says is true of the camera; legacy is never left; a camera that turns out to be old is written to a second time, by the old contract, and no other is; requests and failures are counted |
| `CameraClient.CameraApi.SetLegacy` | control/camera_api.cpp:215-231 | success is exactly status 200, and reports no state |
| `CameraClient.CameraApi.Call` | control/camera_api.cpp:166-210 | the reply to each kind of answer, and its account |
| `CameraClient.CameraApi.Query` | control/camera_api.cpp:233-246 | a camera known to be old is not asked; one without an envelope becomes known as old |
| `PhaseLoop.WrapSigned` | control/phase_controller.cpp:25-30 | the loops end at the same point of the circle, within half a period |
| `PhaseLoop.WrapPositive` | control/phase_controller.cpp:32-37 | the loops end at the same point, within one period |
| `PhaseLoop.IsShortest` | control/phase_controller.cpp:22-30 | no way round is shorter |
| `PhaseLoop.PhaseController.Adopt` | control/phase_controller.cpp:158-181 | state and band are taken from a reply exactly as far as it has them |
| `PhaseLoop.PhaseController.Push` | control/phase_controller.cpp:184-202 | after a write that is answered with state or accepted, the applied value is the camera's; an accepted write is applied unchanged |
| `PhaseLoop.PhaseController.Retarget` | control/phase_controller.cpp:386-396 | another host means an unknown dialect and an unknown band |
| `PhaseLoop.PhaseController.EffLo` | control/phase_controller.cpp:115-117 | the lower end of the band: the greater of ours and the camera's, if that is known |
| `PhaseLoop.PhaseController.EffHi` | control/phase_controller.cpp:118-120 | the upper end: the lesser of the two |
| `PhaseLoop.PhaseController.Error` | control/phase_controller.cpp:242-246 | the error is the shortest way from the target to the phase |
| `PhaseLoop.PhaseController.Steer` | control/phase_controller.cpp:264-293 | the frequency term uses the phase term of two turns ago and stays in the band |
| `PhaseLoop.FirstTurn` | control/phase_controller.cpp:281-285 | where commands act by the actuator's gain and the command that makes the frequencies equal lies in the band, the first turn reaches it |
| `PhaseLoop.FrequencyTermSettles` | control/phase_controller.cpp:264-293 | where what is measured is the whole command of two turns back: every later turn multiplies a measure of the distance from balance by the configured part at least, whatever the phase terms and the band do, and for parts above a quarter the measure bounds the distance, so that parts below one come to balance |
| `PhaseLoop.FrequencyTermSettlesSlowly` | control/phase_controller.cpp:264-293 | for parts up to a quarter every two turns come nearer by the part at least |
| `PhaseLoop.NeverSettlesFromOneOn` | control/phase_controller.cpp:264-293 | from a part of one on the measure never gets less while the band does not bind |
| `PhaseLoop.PhaseTermSettles` | control/phase_controller.cpp:242-299 | with the commands of the controller, each balance and the phase term up to a slack, every turn leaves the same part of the error; over any number of turns the slack adds up to that of one turn divided by what a turn takes off |
| `PhaseLoop.CommandsDrift` | control/phase_controller.cpp:295-309 | the whole-number commands of the controller, sent or left for less than the least step, are such commands, with a slack of half a unit or the least step less half a unit |
| `PhaseLoop.PhaseComesNearer` | control/phase_controller.cpp:242-299 | with exact commands the phase comes nearer exactly if the part taken off is between none and twice the error |
| `PhaseLoop.PhaseController.Lead` | control/phase_controller.cpp:242-306 | steering and sending, in the band of the moment: the command is the nearest whole number to the sum of the two terms, or the nearer end of the band |
| `PhaseLoop.PhaseController.WantedIsInBand` | control/phase_controller.cpp:299-301 | the rounded command is in the band whenever the band is not empty |
| `PhaseLoop.PhaseController.Tick` | control/phase_controller.cpp:207-309 | frequency term and command of every turn lie in the band of the moment; the command is the nearest whole number to frequency term and phase term, or the nearer end of the band; it is sent exactly if it differs enough or is due, and what is applied afterwards is it, or less than the least step away, unless a write failed; without new frames nothing is learned or sent; legacy is left only for another host |
| `PhaseLoop.PhaseController.Begin` | control/phase_controller.cpp:426-467 | the start sends a zero, and what it believes to be applied is what the camera has if it answered |
| `TelemetryFormat.GetPut` | osd/telemetry_log.cpp:28-35 | numbers that fit their field come back |
| `TelemetryFormat.HeaderRoundTrip` | osd/telemetry_reader.cpp:62-73 | every field of a written header is read back |
| `TelemetryFormat.PairRoundTrip` | osd/telemetry_log.cpp:117-123 | each pair of a frame is read back |
| `TelemetryFormat.MissingIsNaN` | osd/telemetry_log.cpp:117-123 | a channel that is missing when a frame is written is not read back |
| `TelemetryFormat.NaNsLieBeyondInfinity` | osd/telemetry_reader.cpp:117-125 | a value is skipped exactly if its bits lie beyond infinity |
| `TelemetryFormat.FrameRoundTrip` | osd/telemetry_reader.cpp:117-125 | reading a frame stores every value that is not NaN under its id and nothing else |
| `TelemetryFormat.FrameAt` | osd/telemetry_reader.cpp:106-114 | frame by frame access finds the frame written |
| `TelemetryLog.Log.OpenFile` | osd/telemetry_log.cpp:63-107 | a new file is a log without frames |
| `TelemetryLog.Log.WriteFrame` | osd/telemetry_log.cpp:113-125 | a frame holds the time, modulo 2^32 milliseconds, and every channel's value or NaN; the file stays a log |
| `TelemetryReader.Reader.Open` | osd/telemetry_reader.cpp:56-80 | a file is opened exactly if it has a header with frames and a step |
| `TelemetryReader.Reader.Fill` | osd/telemetry_reader.cpp:82-127 | a fill that reads stores the frame of the instant, or the last; one that does not leaves the storage |
| `TelemetryReader.Reader.IndexIsTheFrameOf` | osd/telemetry_reader.cpp:86-96 | the frame of an instant from the start on is the one in whose interval it lies, to the millisecond |
| `TelemetryReader.Reader.IndexFromAMillisecondBefore` | osd/telemetry_reader.cpp:86-88 | instants are accepted from less than a millisecond before the start |
| `TelemetryReader.LogIsRead` | osd/telemetry_reader.cpp:82-127 | for every log and any partial frame at its end, reading gives exactly what was written for the instant |
| `LinkMonitor.StepsAddUp` | diag/link_monitor.cpp:137-152 | for any stream losses, packets and steps back make up the numbering, and the extended number is that of the last packet |
| `LinkMonitor.ExactWithoutStepsBack` | diag/link_monitor.cpp:137-152 | losses and packets make up the numbering exactly if no number of the stream is less than the one expected |
| `LinkMonitor.StepsMean` | diag/link_monitor.cpp:137-152 | a packet is a duplicate exactly if it repeats the number before it, and in order exactly if it has the next one |
| `LinkMonitor.LossesAreTheHoles` | diag/link_monitor.cpp:137-152 | in order, with holes below 2^15, the losses are the missing numbers across every wrap-around |
| `LinkMonitor.ReorderingIsCountedAsLoss` | diag/link_monitor.cpp:141-151 | four packets out of order with two losses counted and none missing |
| `LinkMonitor.Monitor.Packet` | diag/link_monitor.cpp:118-166 | the counters are those of the stream; every pause is counted once, with loss exactly if its packet leaves a hole |
| `Glyphs.SortingKeepsTheFirst` | osd/osd.cpp:175-181 | any stable sort keeps what the search of the file finds |
| `Glyphs.StableSortExists` | osd/osd.cpp:175-181 | there is such a sort |
| `Glyphs.FindGlyph` | osd/osd.cpp:301-307 | the binary search finds what the linear search of the file finds, for colliding codes too |
| `Labels.TextRoundTrip` | osd/osd.cpp:362-378 | well-formed text decodes to exactly its code points |
| `Labels.EmitText` | osd/osd.cpp:359-384 | the quads are those of the code points by the linear search; the loop always advances or stops |
| `Labels.EmitIcon` | osd/osd.cpp:386-393 | an icon is drawn by its hash, or not at all |
| `Labels.HashIsFnv` | osd/osd.cpp:29-36 | the hash of icon names has the published values of FNV-1a |
| `Labels.NothingIsLost` | osd/osd.cpp:398-425 | re-joining the segments of a label gives the label; names are not empty and closed by the first bracket |
| `Labels.LabelIsSideBySide` | osd/osd.cpp:359-425 | the quads of a label lie side by side, from its start to where the next one would begin |
| `Labels.EmitLabelOrIcon` | osd/osd.cpp:398-425 | the quads of a label are those of its segments, one after the other |

## Left out

- DisplayTheorems.ScannedIsNeverHandedOut: holds under the assumptions on the environment named above, which are conjuncts of `Enabled`.
- InflateBlock.Inflater.Grow: when an expandable buffer cannot grow, a refused allocation and a size beyond 32 bits are not told apart.
- Png.CreateImage: eight bits a channel only; the expansion of smaller depths, sixteen-bit samples and interlacing are not modelled, and the two halves of the filter buffer are two arrays.
- Gif.ProcessRaster: the blocks after the end code are not skipped over, and colours and transparency are not modelled: the frame holds colour indices.
- Labels.EmitText: coordinates are real numbers.
- PhaseLoop.FrequencyTermSettles: what is measured is the unrounded command of two turns back; its rounding and its clamping to the band are not in the measurement, nor is the averaging over the drift window.
- PhaseLoop.PhaseTermSettles: the frequency term is at balance and stays there, and the error is followed without wrapping; `CommandsDrift` is about turns in which the band does not bind.
- PhaseLoop.PhaseController.Tick: floating-point rounding and the lock indicator, which does not steer, are not modelled.
- PhaseLoop.PhaseController.Begin: the zero it sends is not kept to the band, in the code as in the model.
- AudioProtocol.NoLostRequest: one caller and `set_udp_port`, which is how the station uses an output; more callers are the matter of `FollowsWithoutBlindWrites`. Stopping the thread, back-off times and the audio itself are not modelled.
- TelemetryLog.Log.WriteFrame: a frame is written whole or the file is given up; re-opening a log for append is not modelled.
- LinkMonitor.Monitor.Packet: the percentage and the sender's address are not kept.
- The other blocks of zlib streams (stored blocks and the code lengths of dynamic blocks) and their headers.
- EDID refresh, colour pinning, refresh stretching, retry times and the flip frequency measurement of the display.
- Concurrency is sequentially consistent, and generations and counters do not wrap.
- JPEG and the other image formats, recording, licensing, storage and the session index, which is a list of files here.
