# A verified model of ryll's hardest parts

ryll is a SPICE remote-desktop client. This project models, in Dafny, five of its parts and proves
what they promise over all inputs, all runs or all interleavings:

- **GLZ images.** The decoder of a byte stream of literal pixels, overlapping self-references and
  references into earlier images; the shared image dictionary with its two caps and its tombstones;
  many decoders running at once over that dictionary.
- **Keyboard.** The translator from unreliable host key events to guest key events, its bounded log,
  the modifiers sent beside it, and the two other typists on the same wire, the cadence and
  paste-as-keystrokes, against a model of a guest keyboard reading scancodes.
- **Traffic capture.** Messages are cut into TCP segments, kept in byte-capped rings, merged by time,
  cut to a budget, and read back by the inspector.
- **Reconnecting.** The supervisor of SPICE attempts against any environment, and the link whose
  routes appear and disappear under a relay and an event pump.
- **Snapshots.** Civil dates, sortable timestamps and pruning by name.

`dafny verify dfyconfig.toml` checks all of it.

## How it is laid out

| files | part |
|---|---|
| `GlzStream`, `GlzCanvas`, `ImageLimits`, `GlzDecoder` | the token parser, edits on a canvas of pixels, size limits, the decoder on values and the byte loops that refine it |
| `GlzWalk`, `GlzConfinement`, `GlzEncoder`, `GlzExamples`, `GlzSystem` | when decoding fails, what a missed lookup can spoil, decoding inverts encoding, small images byte for byte, all interleavings |
| `Lru`, `GlzDictionary`, `GlzInserts` | the byte-bounded LRU, the dictionary with tombstones, overlapping inserts |
| `Keys`, `Keyboard`, `KeyCases`, `KeyStrokes`, `KeySenders`, `GuestKeys`, `PasteKeys`, `PasteEnds`, `TypedKeys` | scancodes, the translator and its log, its cases key by key, when a key is down for the guest, several senders on one keyboard, the window's actions and the cadence, the inputs channel and its paste, how pastes end, what is typed in the guest |
| `Wire`, `Segments`, `TrafficRing`, `ReportPcap`, `CaptureRoundTrip` | message framing, segmenting, the ring, the budget cut and the inspector, the whole round trip |
| `Supervisor`, `SessionLink`, `SessionRuns` | retries, the link, every interleaving around it |
| `Calendar`, `Timestamp`, `Prune` | dates, names, pruning |
| `Arithmetic`, `Bytes`, `Options`, `Sequences`, `Sorting` | shared definitions |

Code that changes things step by step is a class or a method with a loop here, proved equal to a
function on values; what the source promises is then proved about that function. Lookups of images
that another task may still insert are an oracle: each comes back with a stored image or with
nothing.

## Where a promise has a condition

- **Decoding fails** on one family of streams. The check before a self-copy lets through a reference
  that starts exactly one pixel before the image, other than to the directly previous pixel
  (`glz.rs:400`): the bound then wraps around. `GlzWalk.DecodesIffNoStray` shows that an image whose
  header and size are accepted decodes if and only if no token read is such a reference, and
  `GlzWalk.StrayReferenceFails` gives a 40-byte image that fails. For references inside their
  sources, which tokens are read is decided by the bytes alone (`GlzWalk.PathDependsOnBytes`), and so
  is whether the image decodes (`GlzWalk.DecodesIffNoStrayInBytes`).
- **The guest's keyboard agrees** with what the host holds as far as the translator goes, but it has
  other senders. `KeySenders.GuestBelief` says exactly what the guest believes in every interleaving,
  and `GuestKeys.AgreementBesideOthers` when that is what is held. The cadence types a space without
  looking: a tick keeps agreement if and only if the space bar is not held (`GuestKeys.TickAgreesIff`,
  `GuestKeys.TickLosesHeldSpace`, and over whole runs `GuestKeys.GuestAgreement`). A paste that nothing
  interrupts does no harm if and only if it types no held key (`PasteKeys.PasteAlone`). A paste
  presses Ctrl and Alt again at its end if they were down at its start: that agrees if and only if
  the host, if it held the key when the paste began, holds it when the paste ends
  (`PasteKeys.PasteAgreesIff`), and `PasteKeys.PasteLeavesCtrlPressed` is a run that leaves Ctrl pressed
  in the guest with nobody holding it. Shift, which a paste types itself, has the same condition if it
  was held at the start; if it was pressed only during the paste, no stroke may have taken it since
  (`PasteEnds.PasteAgreesOnShiftIff`).
- **A cancelled paste** is documented to leave no key events running (`inputs.rs:1080-1082`). It just
  stops: the modifiers it released stay released, and a stroke of which only the press was typed stays
  pressed (`PasteEnds.CancelLeaves`, `PasteEnds.CancelLeavesKeyPressed`). Between two strokes it does no
  harm if and only if no modifier was held when the paste began and it typed no held key
  (`PasteEnds.CancelAgreesIff`).
- **Capture reads back** every retained message whole from the cut on, in the order of time. That is
  the order recorded, for different messages, if and only if the times of what the ring holds do not
  decrease (`CaptureRoundTrip.RecordedOrderIff`); a time is read before its ring is locked, so two
  threads recording on one channel can make them decrease, and `CaptureRoundTrip.DecreasingTimesSwap`
  is a ring whose two messages read back swapped. There is no report at all if and only if the file
  format cannot hold one of the times to be written (`CaptureRoundTrip.TrafficBuffers.DrainWithin`).
- **A live capture** is handed whatever a socket read returned. The file holds all bytes of a direction,
  joined (`CaptureRoundTrip.LiveStream`), so every whole message reads back however the reads cut it up
  (`CaptureRoundTrip.LiveReads`).
- **No live image is tombstoned** while inserts do not overlap, nor, once none is under way, if they
  overlapped but took the second lock in the order they took the first
  (`GlzInserts.InTurnRunsAreAtomic`). In every interleaving it
  stays so unless some id was stored by the last first half that names it and buried by the last second
  half; while no more ids were ever evicted than tombstones are kept, that is exact
  (`GlzInserts.OverlapExact`). `GlzInserts.CrossedTombstonesLive` is a run of three inserts that leaves a
  live image tombstoned. `GlzDictionary.OverlapSoundIff` is the case of one insert inside another: the
  outer one must not have evicted the inner one's image.
- **What the relay takes** is delivered if and only if its route was not looked up in an outage and the
  queue found took it (`SessionRuns.RelayConserves`). What counts is the lookup: a session may
  begin between receiving an item and looking up its route; `SessionRuns.LateLookReachesNextSession`
  is such a run.
- **Snapshot names sort by time** up to the end of year 9999. `Timestamp.LexicographicIffLeadingYear`
  says for any two times exactly when their names are in order, and
  `Timestamp.YearTenThousandOutOfOrder` gives the two adjacent seconds that are not. Within one second
  the uptimes decide: the earlier sorts first if and only if its whole seconds are at most the leading
  digits of the later's (`Prune.SameSecondByUptime`), so 10.0 sorts before 9.9
  (`Prune.LaterFirstInOneSecond`).

Where comments and code disagree the code is followed: the comment on the traffic buffers speaks of
four rings (`bugreport.rs:441`), there are six. A live capture has five files: playback has a ring but
no file (`capture.rs:280`).

## Model

| member | source | states |
|---|---|---|
| `GlzStream.ScanLength` | shakenfist-spice-compression/src/glz.rs:312-324 | the run-length loop adds bytes up to and including the first that is not 255, or to the end of the stream |
| `GlzStream.ScanLe` | shakenfist-spice-compression/src/glz.rs:348-355 | the distance loop reads the little-endian bytes that are present |
| `GlzStream.ReadLengthMeans` | shakenfist-spice-compression/src/glz.rs:312-324 | a run length is the sum of the bytes read, all 255 but the last, which ends it unless the stream does |
| `GlzStream.ReadLeMeans` | shakenfist-spice-compression/src/glz.rs:348-355 | a distance is the little-endian value of those of its bytes that are present |
| `GlzStream.ScanReference` | shakenfist-spice-compression/src/glz.rs:306-377 | scanning a reference gives the parser's token and next position, or finds the stream truncated where a code byte is missing |
| `GlzStream.HeaderOnly` | shakenfist-spice-compression/src/glz.rs:221-260 | only the first 33 bytes decide the header or its error |
| `GlzCanvas.CopyIsPeriodic` | shakenfist-spice-compression/src/glz.rs:379-410 | a self-copy at distance d writes the last d pixels over and over, and touches nothing else |
| `GlzCanvas.FillIsCopy` | shakenfist-spice-compression/src/glz.rs:384-395 | the separate branch for the directly previous pixel is the general copy at distance 1 |
| `ImageLimits.RgbaLen` | shakenfist-spice-compression/src/limits.rs:49-59 | refuses exactly zero, too large a side or too many pixels; otherwise four bytes a pixel, at most 2^28 |
| `ImageLimits.LimitInstances` | shakenfist-spice-compression/src/limits.rs:49-59 | 1920 by 1080 is accepted, as are 16384 by 4096 and 16384 by 1; one more of either side is not |
| `ImageLimits.NewGlz` | shakenfist-spice-compression/src/lib.rs:150-167 | an image is only built with a buffer exactly as long as its accepted dimensions say |
| `GlzDecoder.SourceIsBehind` | shakenfist-spice-compression/src/glz.rs:412-415 | counting the distance up from the referenced id, modulo 2^64, gives the image's own id |
| `GlzDecoder.BytesOfPixelsOf` | shakenfist-spice-compression/src/glz.rs:298-301 | reading a buffer as pixels and writing the pixels back gives the buffer |
| `GlzDecoder.CopyLiterals` | shakenfist-spice-compression/src/glz.rs:292-304 | writes exactly the literal pixels that are present and have room, red and blue exchanged and opaque |
| `GlzDecoder.CopyPrevious` | shakenfist-spice-compression/src/glz.rs:506-517 | copies the part of the earlier image that exists and fits |
| `GlzDecoder.RepeatPixel` | shakenfist-spice-compression/src/glz.rs:384-395 | the byte loop for the directly previous pixel makes the self-copy edit, and nothing at the first pixel |
| `GlzDecoder.CopyBlock` | shakenfist-spice-compression/src/glz.rs:396-409 | the byte loop of the general branch makes the self-copy edit or fails, with wrapping source positions |
| `GlzDecoder.CopySelf` | shakenfist-spice-compression/src/glz.rs:379-410 | both branches together make the self-copy edit, and fail exactly one pixel before the start |
| `GlzDecoder.DecodeLoop` | shakenfist-spice-compression/src/glz.rs:286-520 | the byte loop, over any lookups, ends as the meaning of the tokens says, all accesses in range |
| `GlzDecoder.ReverseRows` | shakenfist-spice-compression/src/glz.rs:522-531 | copies rows of bytes in reverse order into a fresh buffer |
| `GlzDecoder.FlipBuffer` | shakenfist-spice-compression/src/glz.rs:522-531 | reverses the order of the rows of pixels |
| `GlzDecoder.FlipRowsAt` | shakenfist-spice-compression/src/glz.rs:522-531 | row q of a turned image is row height-1-q of the image, pixel by pixel |
| `GlzDecoder.FlipTwice` | shakenfist-spice-compression/src/glz.rs:522-531 | turning twice gives the image back |
| `GlzDecoder.FlipPermutes` | shakenfist-spice-compression/src/glz.rs:522-531 | turning rearranges pixels and loses none |
| `GlzDecoder.FinishNeverRefuses` | shakenfist-spice-compression/src/glz.rs:533-534 | once the dimensions were accepted the last constructor never refuses, and the image is valid |
| `GlzDecoder.BuildImage` | shakenfist-spice-compression/src/glz.rs:522-534 | turns bottom-up rows and builds the result |
| `GlzDecoder.DecompressGlz` | shakenfist-spice-compression/src/glz.rs:221-535 | the whole byte-level decoder refines decoding on pixels, header errors and refused dimensions included |
| `GlzWalk.FailsIffStrayFrom` | shakenfist-spice-compression/src/glz.rs:379-410 | from any position, decoding fails if and only if a token it reads is a self-reference one pixel before the start |
| `GlzWalk.DecodesIffNoStray` | shakenfist-spice-compression/src/glz.rs:273-534 | an accepted header decodes to a valid image of its dimensions if and only if no such reference is read |
| `GlzWalk.RefusedIff` | shakenfist-spice-compression/src/glz.rs:221-279 | decoding refuses exactly what its header says: with the header's error, or for sides over 16384, areas over 2^26 or nothing at all |
| `GlzWalk.StrayReferenceFails` | shakenfist-spice-compression/src/glz.rs:396-409 | a concrete two-pixel image fails whatever the dictionary holds |
| `GlzWalk.PathDependsOnBytes` | shakenfist-spice-compression/src/glz.rs:288-520 | if found references lie inside their sources, the tokens read and the output positions are those of a decoder with no dictionary at all |
| `GlzWalk.DecodesIffNoStrayInBytes` | shakenfist-spice-compression/src/glz.rs:273-534 | for references inside their sources, an image decodes if and only if its bytes, read with an empty dictionary, hold no such reference |
| `GlzConfinement.ReferenceBeside` | shakenfist-spice-compression/src/glz.rs:379-517 | a found and a missed lookup keep output positions together, and canvases equal off the marked pixels |
| `GlzConfinement.MissesConfinedFrom` | shakenfist-spice-compression/src/glz.rs:288-520 | two runs, one missing lookups the other has, end alike and differ only at marked pixels |
| `GlzConfinement.MissesConfined` | shakenfist-spice-compression/src/glz.rs:221-535 | misses are confined: images decoded with and without some lookups differ only at pixels derived, directly or through self-references, from the missed ones, also through the row turn |
| `GlzConfinement.NoMissNoMark` | shakenfist-spice-compression/src/glz.rs:416-496 | where no lookup is missed no pixel is marked |
| `GlzEncoder.FormExists` | shakenfist-spice-compression/src/glz.rs:341-377 | every reference with offset below 2^12 and distance below 2^30, or offset below 2^25 and distance below 2^24, has a written form |
| `GlzEncoder.ReadLengthInverts` | shakenfist-spice-compression/src/glz.rs:312-324 | a run length written as a chain of 255s reads back, of any size |
| `GlzEncoder.TailInverts` | shakenfist-spice-compression/src/glz.rs:341-377 | offset and distance written into the shared bit fields read back, in every form |
| `GlzEncoder.ReferenceParses` | shakenfist-spice-compression/src/glz.rs:306-377 | an encoded reference parses back to its length, offset and distance, and to the position after it |
| `GlzEncoder.ColoursTurn` | shakenfist-spice-compression/src/glz.rs:292-304 | an encoded run of 1 to 32 colours is decoded as one write of those colours |
| `GlzEncoder.DecodesPieces` | shakenfist-spice-compression/src/glz.rs:288-520 | decoding an encoded list of pieces makes exactly their edits, fails where they do, and goes on with what follows unless the image is full |
| `GlzEncoder.LostReference` | shakenfist-spice-compression/src/glz.rs:379-517 | a reference to further before the image than one pixel changes nothing, one to a missing image passes over its pixels, one to an image too short copies what is there |
| `GlzEncoder.DescribedPlays` | shakenfist-spice-compression/src/glz.rs:379-517 | pieces that match an image place by place produce that image, overlapping copies included |
| `GlzEncoder.HeaderExists` | shakenfist-spice-compression/src/glz.rs:226-260 | every header whose fields fit can be written, byte for byte, so that it parses back |
| `GlzEncoder.HeaderParses` | shakenfist-spice-compression/src/glz.rs:226-260 | magic, version 1, flags and big-endian width, height, id and window head distance, each in its place, parse to those fields; top-down exactly when flag 16 is set |
| `GlzEncoder.HeaderWritten` | shakenfist-spice-compression/src/glz.rs:226-260 | only such bytes parse |
| `GlzEncoder.HeaderErrors` | shakenfist-spice-compression/src/glz.rs:222-251 | which error: fewer than 33 bytes, then another magic, then another version |
| `GlzEncoder.DecodeInvertsEncode` | shakenfist-spice-compression/src/glz.rs:221-535 | decoding inverts encoding: a header and pieces that describe an image decode to exactly that image |
| `GlzEncoder.ChunksDescribe` | shakenfist-spice-compression/src/glz.rs:292-304 | every opaque image has an encoding, whatever the dictionary holds |
| `GlzExamples.TwoByOneParses` | shakenfist-spice-compression/src/glz.rs:226-260 | a concrete header, flags 16: top-down, two by one |
| `GlzExamples.NothingWrittenIsZero` | shakenfist-spice-compression/src/glz.rs:280-284 | an accepted header alone is an image of zeros |
| `GlzExamples.BottomUpImage` | shakenfist-spice-compression/src/glz.rs:292-304 | a concrete image of two literal pixels, stored blue first and bottom-up, byte for byte |
| `GlzExamples.CopiedPixels` | shakenfist-spice-compression/src/glz.rs:379-517 | a concrete image with a copy within it and one from the image two before, found or missing |
| `GlzExamples.TornImage` | shakenfist-spice-compression/src/glz.rs:306-340 | a concrete image whose last token is cut off keeps the pixels before it |
| `GlzSystem.AdvanceReached` | shakenfist-spice-compression/src/glz.rs:411-496 | one turn of one decoder among many keeps it on the path of a decode by itself |
| `GlzSystem.InterleavingsAreSequential` | shakenfist-spice-compression/src/glz.rs:91-535 | in every interleaving each decode that ends has the result of decoding alone with the answers its lookups got, failures included |
| `GlzSystem.DictionaryMembers` | shakenfist-spice-compression/src/glz.rs:91-168 | no dictionary operation brings in anything but the image inserted |
| `GlzSystem.PixelsOpaqueOrBlank` | shakenfist-spice-compression/src/glz.rs:280-531 | starting from an empty dictionary, every pixel on a canvas, in a result or stored is all zero or opaque, in every interleaving |
| `GlzSystem.AnswersAreDecodedImages` | shakenfist-spice-compression/src/glz.rs:91-535 | in every interleaving each stored image is a decoded one under its own id, and each image a lookup came back with was decoded under the id that its reference names |
| `Lru.TrimIsLongestPrefix` | shakenfist-spice-compression/src/byte_bounded_lru.rs:205-236 | what eviction leaves is the longest most-recently-used-first prefix within both caps |
| `Lru.TrimKeepsFront` | shakenfist-spice-compression/src/byte_bounded_lru.rs:205-236 | eviction never drops the entry just inserted |
| `Lru.TrimmedKeys` | shakenfist-spice-compression/src/byte_bounded_lru.rs:205-236 | the evicted keys are all the others, least recently used first |
| `Lru.PutKeepsOrder` | shakenfist-spice-compression/src/byte_bounded_lru.rs:170-204 | a stored entry comes first; the others, less the one it replaces, keep their order |
| `Lru.WithoutKeepsOrder` | shakenfist-spice-compression/src/byte_bounded_lru.rs:261-269 | removing an entry leaves the others in their order |
| `Lru.RetainKeepsOrder` | shakenfist-spice-compression/src/byte_bounded_lru.rs:287-302 | keeping some entries keeps their order |
| `Lru.ByteBoundedLru.WithCaps` | shakenfist-spice-compression/src/byte_bounded_lru.rs:131-142 | an empty cache with the given caps, which must be positive |
| `Lru.ByteBoundedLru.constructor` | shakenfist-spice-compression/src/byte_bounded_lru.rs:116-119 | the entry cap is one for every 96 bytes of the byte cap, at least one |
| `Lru.ByteBoundedLru.InsertRecordingEvicted` | shakenfist-spice-compression/src/byte_bounded_lru.rs:170-246 | refuses only an oversized value, else puts it in front and evicts to the caps; keys, counts, freed bytes and outcome are exact, and accepted bytes equal live plus evicted plus displaced plus removed |
| `Lru.ByteBoundedLru.EvictToCaps` | shakenfist-spice-compression/src/byte_bounded_lru.rs:205-236 | the eviction loop leaves the longest fitting prefix; its subtraction never saturates and its drift branch is never reached |
| `Lru.ByteBoundedLru.Get` | shakenfist-spice-compression/src/byte_bounded_lru.rs:251-253 | returns the stored value and makes it the most recently used |
| `Lru.ByteBoundedLru.Remove` | shakenfist-spice-compression/src/byte_bounded_lru.rs:261-269 | removes exactly the key, with exact accounting |
| `Lru.ByteBoundedLru.Clear` | shakenfist-spice-compression/src/byte_bounded_lru.rs:277-280 | empties the cache, with exact accounting |
| `Lru.ByteBoundedLru.RetainKeys` | shakenfist-spice-compression/src/byte_bounded_lru.rs:287-302 | keeps exactly the entries whose key passes, in order, and counts the others |
| `GlzDictionary.ApplySound` | shakenfist-spice-compression/src/glz.rs:91-168 | every operation keeps the caps and the tombstone invariant |
| `GlzDictionary.TombstonesSound` | shakenfist-spice-compression/src/glz.rs:91-148 | after any operations no live id is tombstoned, every tombstoned id was evicted by a cap and not stored since, and at most 4096 are kept |
| `GlzDictionary.EvictedAreTombstoned` | shakenfist-spice-compression/src/glz.rs:91-106 | every id an insert evicts is tombstoned right after it, if it evicts no more than fit |
| `GlzDictionary.InsertIsTwoSteps` | shakenfist-spice-compression/src/glz.rs:91-106 | an insert is its step on the images and then its step on the tombstones |
| `GlzDictionary.OverlapSoundIff` | shakenfist-spice-compression/src/glz.rs:91-106 | an insert between the two locks of another leaves no live id tombstoned if and only if the other did not evict its id |
| `GlzDictionary.SharedDictionary.constructor` | shakenfist-spice-compression/src/glz.rs:72-81 | an empty dictionary with the given byte cap |
| `GlzDictionary.SharedDictionary.StoreImage` | shakenfist-spice-compression/src/glz.rs:91-97 | the half under the images' lock: the LRU's insert, and exactly the ids it evicted, none for a refused image |
| `GlzDictionary.SharedDictionary.SettleTombstones` | shakenfist-spice-compression/src/glz.rs:99-106 | the half under the tombstones' lock: the evicted ids buried in order, the id's own tombstone cleared |
| `GlzDictionary.SharedDictionary.InsertImage` | shakenfist-spice-compression/src/glz.rs:91-127 | one insert that nothing falls into: both halves, the evicted ids buried, the id's own tombstone cleared, a refused image included |
| `GlzDictionary.SharedDictionary.WasEvicted` | shakenfist-spice-compression/src/glz.rs:143-148 | true only for an id the cap evicted, that is not live and was not stored since |
| `GlzDictionary.SharedDictionary.GetImage` | shakenfist-spice-compression/src/glz.rs:418-421 | a lookup gives what is stored and only reorders |
| `GlzDictionary.SharedDictionary.RemoveImage` | shakenfist-spice-compression/src/glz.rs:152-154 | removes the id, says whether it was present, tombstones nothing |
| `GlzDictionary.SharedDictionary.EvictOlder` | shakenfist-spice-compression/src/glz.rs:158-163 | removes exactly the older ids and counts them |
| `GlzDictionary.SharedDictionary.ClearImages` | shakenfist-spice-compression/src/glz.rs:166-168 | removes every image, tombstones nothing |
| `GlzInserts.InTurnIsAtomic` | shakenfist-spice-compression/src/glz.rs:91-106 | with the second halves in the order of the first, each half acts on the settled dictionary as if inserts were single steps |
| `GlzInserts.InTurnRunsAreAtomic` | shakenfist-spice-compression/src/glz.rs:91-168 | over every such run the settled dictionary is that of the same operations one after the other, and with no insert under way it is sound |
| `GlzInserts.LiveIff` | shakenfist-spice-compression/src/glz.rs:91-168 | in every interleaving an id is live if and only if the last act on the images that names it stored it |
| `GlzInserts.OnlyBuriedAreTombstoned` | shakenfist-spice-compression/src/glz.rs:99-106 | in every interleaving only ids that the last second half naming them buried are tombstoned, each once, at most 4096 |
| `GlzInserts.TombstonedIff` | shakenfist-spice-compression/src/glz.rs:99-106 | while no more than 4096 ids were ever evicted, exactly those are tombstoned |
| `GlzInserts.OverlapExact` | shakenfist-spice-compression/src/glz.rs:91-168 | in every interleaving no live id is tombstoned unless one is stored last and buried last; an equivalence while no more than 4096 ids were ever evicted |
| `GlzInserts.CrossedTombstonesLive` | shakenfist-spice-compression/src/glz.rs:91-106 | a concrete run of three overlapping inserts that leaves a live image tombstoned |
| `Keys.KeyAtInverts` | shakenfist-spice-renderer/src/channels/inputs.rs:1260-1356 | every mapped key's base code stands for that key and no other |
| `Keys.ScancodeNamesKey` | shakenfist-spice-renderer/src/channels/inputs.rs:1260-1389 | press and release codes of a key, prefixed codes included, name the same key, as a make and a break |
| `Keys.PositionsDiffer` | shakenfist-spice-renderer/src/channels/inputs.rs:1260-1389 | different mapped keys are different to the guest |
| `KeyCases.KeyboardLayout` | shakenfist-spice-renderer/src/channels/inputs.rs:1260-1389 | the code of every key without a prefix, row by row of the keyboard, and its key-up 128 above |
| `KeyCases.PrefixedKeys` | shakenfist-spice-renderer/src/channels/inputs.rs:1260-1389 | the code of every key with a prefix, sent with 0xE0 as its low byte |
| `Keyboard.TranslateAgrees` | ryll/src/input_egui.rs:547-647 | one event takes a guest that believed pressed what was held to believing pressed what is now held, with at most two codes, none for a shortcut key |
| `Keyboard.ReleasesAgree` | ryll/src/input_egui.rs:310-328 | releasing all held keys, in any order, leaves the guest with nothing pressed |
| `Keyboard.RunAgrees` | ryll/src/input_egui.rs:501-647 | guest agreement over every event sequence: the guest believes pressed exactly the held keys; suppressed and held are disjoint, a chord's key is held, no shortcut key is held |
| `Keyboard.HeldKeys.constructor` | ryll/src/input_egui.rs:295-305 | a fresh translator with an empty log |
| `Keyboard.HeldKeys.PushLog` | ryll/src/input_egui.rs:391-397 | appends to a lossless record of which the log is the last 256 entries and the counter the length |
| `Keyboard.HeldKeys.ReleaseAll` | ryll/src/input_egui.rs:310-328 | releases every held key once, logs each with its key and code, and forgets held, suppressed and chords |
| `Keyboard.HeldKeys.EndFrame` | ryll/src/input_egui.rs:407-409 | records the frame's modifiers |
| `Keyboard.HeldKeys.WithholdPasteRelease` | ryll/src/input_egui.rs:416-418 | leaves an outstanding paste whose release is withheld |
| `Keyboard.HeldKeys.PressClipboardChord` | ryll/src/input_egui.rs:427-455 | a clipboard event is turned into its key's press, a repeat, or withheld |
| `Keyboard.HeldKeys.TakeClipboardChord` | ryll/src/input_egui.rs:459-465 | takes the outstanding chord the key ends, in the fixed order, and no other |
| `Keyboard.HeldKeys.TranslateKeyPress` | ryll/src/input_egui.rs:580-647 | a key event changes state and sends codes as the translation on values says |
| `Keyboard.HeldKeys.TranslateKeyEvent` | ryll/src/input_egui.rs:547-647 | likewise for every kind of event |
| `Keyboard.HeldKeys.LogTranslated` | ryll/src/input_egui.rs:517-539 | a translated event adds one entry: its kind, keys, modifiers, outcome and exactly the codes it sent; the limit of two never cuts one off |
| `Keyboard.HeldKeys.LoseFocus` | ryll/src/input_egui.rs:504-516 | releases everything and leaves the state of a fresh translator, apart from log and clock |
| `Keyboard.HeldKeys.HandleEvent` | ryll/src/input_egui.rs:503-540 | one event of any kind keeps guest agreement and the lossless log |
| `Keyboard.HeldKeys.TranslateKeyEvents` | ryll/src/input_egui.rs:501-542 | a whole frame is a run of the translator, its codes are logged in order, and agreement holds after it |
| `KeyCases.ReleaseOfUnheld` | ryll/src/input_egui.rs:628-646 | in every state, what the release of a key that is not held and ends no chord sends: nothing if its press was withheld, under Cmd, or for Ctrl+Alt+V; both codes for V under the command key and for Insert under Shift without Ctrl; else its key-up |
| `KeyCases.SwallowedPasteIsTyped` | ryll/src/input_egui.rs:637-644 | a concrete case: the release of V under Ctrl alone sends 0x2F and 0xAF |
| `KeyCases.WithheldStroke` | ryll/src/input_egui.rs:602-636 | a press withheld for Cmd sends nothing, and neither does its release |
| `KeyCases.ChordCodes` | ryll/src/input_egui.rs:199-211 | which code each clipboard event is sent as, by the modifiers |
| `KeyCases.ChordEnds` | ryll/src/input_egui.rs:213-227 | which keys' releases end which chord, copying before pasting, and what is then sent and remembered |
| `KeyCases.ChordIsOutstanding` | ryll/src/input_egui.rs:427-455 | a chord withheld for Cmd is remembered as such; a repeated or unmapped one leaves the chords as they were |
| `KeyCases.ModifiersFollow` | ryll/src/input_egui.rs:501-647 | over every run the modifiers recorded are those last reported, none after a loss of focus |
| `KeyCases.OutcomeMeans` | ryll/src/input_egui.rs:547-647 | what is logged of an event is what became of it |
| `KeyCases.UnmappedKey` | ryll/src/input_egui.rs:602-606 | a key event is logged as unmapped exactly when its key has no code and it releases nothing |
| `KeyCases.UnmappedChord` | ryll/src/input_egui.rs:437-446 | a clipboard event is logged as unmapped exactly when no key could have made it |
| `KeyStrokes.PressReachesGuest` | ryll/src/input_egui.rs:580-627 | in every state a press is sent as one key-down exactly when the key is mapped, not a shortcut and Cmd is up |
| `KeyStrokes.HeldUntilReleased` | ryll/src/input_egui.rs:580-601 | a held key is let go exactly by its own release or by its chord's end, and then its recorded key-up is all that is sent |
| `KeyStrokes.StrokeReleasesWhatItPressed` | ryll/src/input_egui.rs:580-627 | a stroke of one physical key sends its down and up whatever its release looks like, and leaves held as it was |
| `KeyStrokes.ChordReachesGuest` | ryll/src/input_egui.rs:427-455 | a clipboard chord presses its key unless Cmd is down or no key produces it |
| `KeyStrokes.ChordReleasesWhatItPressed` | ryll/src/input_egui.rs:591-600 | the release of any key that could have made a chord releases the key the chord pressed |
| `KeyStrokes.HeldAfter` | ryll/src/input_egui.rs:501-647 | a key is held after an event if and only if the event presses it, or it was held and is neither let go nor lost with the focus |
| `KeyStrokes.PressedExactlyWhileDown` | ryll/src/input_egui.rs:501-647 | over every run the guest believes a key pressed exactly from the event that presses it to the event that lets it go or takes the focus, and the code recorded for it is its own |
| `GuestKeys.ModifierEventsAgree` | ryll/src/input_egui.rs:707-719 | the events sent for a change of modifiers take the guest from the one set to the other and touch no other key |
| `GuestKeys.RunBeside` | ryll/src/input_egui.rs:501-647 | translated keys and modifiers do not disturb each other at the guest |
| `GuestKeys.ShortcutsNeverSent` | ryll/src/input_egui.rs:581-584 | over every run no shortcut key is held and no code of one is sent |
| `GuestKeys.ActionAgrees` | ryll/src/app/mod.rs:2956-3001 | handling a frame, releasing everything, ending a frame and withholding a paste's release each keep the guest in step, modifiers included |
| `GuestKeys.GuestAgreement` | ryll/src/app/mod.rs:2956-3016 | over every run of frames, releases and cadence ticks the guest believes pressed the held keys and the modifiers last reported, less a held space bar that a tick released since anything was last sent for it; in step if and only if there is none |
| `GuestKeys.TickAgreesIff` | ryll/src/app/mod.rs:3003-3016 | a cadence tick keeps a guest in step if and only if the space bar is not held; held, it is lost |
| `GuestKeys.TickLosesHeldSpace` | ryll/src/app/mod.rs:3003-3016 | a concrete run: space held, one tick, out of step |
| `GuestKeys.OwnCodesAgree` | ryll/src/app/mod.rs:2956-3016 | what is sent for the host's keys, by itself, leaves the guest with exactly the held keys and modifiers, whatever the cadence sends |
| `GuestKeys.AgreementBesideOthers` | shakenfist-spice-renderer/src/channels/inputs.rs:355-446 | with any other codes in between, the guest is in step if and only if no other sender's last word on a position contradicts what is held |
| `GuestKeys.AgreementDespiteLosses` | ryll/src/app/mod.rs:2971-2999 | with any codes lost to a full or missing queue, the guest is in step if and only if no lost code, the last for its position, contradicts what it believes |
| `KeySenders.GuestBelief` | shakenfist-spice-renderer/src/channels/inputs.rs:641-693 | in every interleaving the guest believes what the own codes alone would make it believe, less what others released last, with what others pressed last |
| `KeySenders.AgreementIff` | shakenfist-spice-renderer/src/channels/inputs.rs:641-693 | other senders do no harm exactly when they released last nothing held and pressed last nothing else |
| `KeySenders.StandingMeans` | shakenfist-spice-renderer/src/channels/inputs.rs:641-693 | what stands for a position is the last code sent for it, if another sender's |
| `PasteKeys.InputsChannel.HandleKey` | shakenfist-spice-renderer/src/channels/inputs.rs:641-693 | sends the code and records Ctrl, Shift and Alt |
| `PasteKeys.InputsChannel.BeginPaste` | shakenfist-spice-renderer/src/channels/inputs.rs:853-949 | releases and remembers the modifiers held and starts to type; nothing while a paste is under way or for an empty text |
| `PasteKeys.InputsChannel.AdvancePaste` | shakenfist-spice-renderer/src/channels/inputs.rs:1083-1173 | types one half of a stroke, Shift included, and after the last presses the remembered modifiers |
| `PasteKeys.InputsChannel.RestoreModifiers` | shakenfist-spice-renderer/src/channels/inputs.rs:1135-1153 | presses and records exactly the remembered modifiers |
| `PasteKeys.InputsChannel.CancelPaste` | shakenfist-spice-renderer/src/channels/inputs.rs:1084-1099 | a cancelled paste is forgotten, and the record of the modifiers stays as it was |
| `PasteKeys.PasteAlone` | shakenfist-spice-renderer/src/channels/inputs.rs:853-1173 | a paste that nothing interrupts leaves channel and modifiers as they were and takes from the guest exactly the held keys it types |
| `PasteKeys.RecordIsBelief` | shakenfist-spice-renderer/src/channels/inputs.rs:641-1173 | in every run, pastes and cancels included, the channel's record of Ctrl and Alt is what the guest believes |
| `PasteKeys.PasteAgreesIff` | shakenfist-spice-renderer/src/channels/inputs.rs:853-1173 | a paste with anything else in between ends in agreement on Ctrl, or Alt, if and only if the host, if it held it when the paste began, holds it when the paste ends |
| `PasteKeys.PasteLeavesCtrlPressed` | shakenfist-spice-renderer/src/channels/inputs.rs:1135-1153 | a concrete run that leaves Ctrl pressed in the guest with nobody holding it |
| `PasteKeys.WindowSendsProperly` | ryll/src/app/mod.rs:2956-3016 | every event the window sends speaks of Ctrl, Shift and Alt only in the codes the channel records |
| `PasteEnds.ShiftFollows` | shakenfist-spice-renderer/src/channels/inputs.rs:641-1173 | over every run, pastes and cancels included, what the guest believes of Shift follows from the host's own events and the strokes typed |
| `PasteEnds.PasteAgreesOnShiftIff` | shakenfist-spice-renderer/src/channels/inputs.rs:853-1173 | a paste with anything else in between ends in agreement on Shift if and only if the host, having held it at the start, holds it at the end; or, having not, holds it at the end only if no stroke took it since |
| `PasteEnds.CancelLeaves` | shakenfist-spice-renderer/src/channels/inputs.rs:853-1121 | a paste cancelled after any number of halves of strokes leaves the guest without the modifiers it released and the keys it typed whole, and with the key, and Shift, of a half one |
| `PasteEnds.CancelAgreesIff` | shakenfist-spice-renderer/src/channels/inputs.rs:1084-1099 | cancelling between two strokes does no harm if and only if no modifier was held when the paste began and it typed no held key |
| `PasteEnds.CancelLeavesKeyPressed` | shakenfist-spice-renderer/src/channels/inputs.rs:1084-1121 | cancelling within a stroke leaves its key pressed, and Shift if it goes with it |
| `TypedKeys.PasteTypesText` | shakenfist-spice-renderer/src/channels/inputs.rs:853-1173 | a paste that nothing interrupts types its text: every stroke's key in order, under Shift exactly if it goes with it and never under Ctrl or Alt, whatever is held |
| `TypedKeys.PasteSends` | shakenfist-spice-renderer/src/channels/inputs.rs:853-1173 | its codes, one by one |
| `TypedKeys.NoSecondPaste` | shakenfist-spice-renderer/src/channels/inputs.rs:853-949 | a second paste while one is under way, or a paste of nothing, does nothing |
| `TypedKeys.FrameTypes` | ryll/src/app/mod.rs:2971-2986 | every key of a frame is pressed under the modifiers of that frame, not those before it |
| `TypedKeys.ModifierCodes` | ryll/src/input_egui.rs:695-719 | the codes of Ctrl, Shift and Alt, in that order |
| `Wire.ParseEncodeAll` | tools/pcap-inspect.py:140-153 | parsing whole messages, followed by a torn one, gives exactly the whole ones |
| `Wire.IterMessages` | tools/pcap-inspect.py:140-153 | the loop finds messages that tile the buffer from its start, and their contents are the parse |
| `Wire.ParsedBytes` | tools/pcap-inspect.py:140-153 | a concrete buffer: two messages, little-endian, and the start of a third |
| `Segments.SegmentPayload` | ryll/src/capture.rs:156-192 | the segmenting loop gives the segments of the payload |
| `Segments.SegmentCarries` | ryll/src/capture.rs:156-246 | segments are all full but the last, concatenate to the payload, carry base plus offset modulo 2^32, and none is oversize |
| `Segments.SegmentAt` | ryll/src/capture.rs:156-192 | one segment for every 65495 bytes, at least one; the i-th holds the i-th 65495 bytes |
| `Segments.FramesForCarries` | ryll/src/bugreport.rs:615-638 | the same for the ports and the two sequence numbers of a channel and direction |
| `TrafficRing.SequenceNumbersCountBytes` | ryll/src/bugreport.rs:615-638 | each end's number is its base plus all bytes sent in that direction modulo 2^32, over any interleaving |
| `TrafficRing.EntryCarriesRecord` | ryll/src/bugreport.rs:534-607 | each entry carries its message with the numbers its history gives |
| `TrafficRing.EntrySize` | ryll/src/bugreport.rs:159-169 | an entry counts its message and 54 bytes for each segment |
| `TrafficRing.RetainedIsLongestSuffix` | ryll/src/bugreport.rs:159-169 | what is retained is the longest suffix that fits the cap, empty if the last entry alone is too large |
| `TrafficRing.RetainedPush` | ryll/src/bugreport.rs:159-169 | trimming at every push is trimming the whole history once |
| `TrafficRing.TrafficRingBuffer.constructor` | ryll/src/bugreport.rs:145-153 | an empty ring with both sequence bases |
| `TrafficRing.TrafficRingBuffer.Push` | ryll/src/bugreport.rs:159-169 | pushes, evicts from the front to the cap, and keeps the byte total exact |
| `TrafficRing.TrafficRingBuffer.BuildSegmentedFrames` | ryll/src/bugreport.rs:615-638 | segments with the direction's numbers and advances only the sender's |
| `TrafficRing.TrafficRingBuffer.RecordMessage` | ryll/src/bugreport.rs:534-607 | the ring stays a function of everything ever recorded |
| `TrafficRing.PcapChannelWriter.WriteFrame` | ryll/src/capture.rs:123-137 | writes a frame unless it is longer than the snap length |
| `TrafficRing.PcapChannelWriter.WriteSegmented` | ryll/src/capture.rs:103-121 | writes every segment in order, none refused |
| `TrafficRing.PcapChannelWriter.WriteSent` | ryll/src/capture.rs:74-84 | the file stays all segments of everything written, and only the client number advances |
| `TrafficRing.PcapChannelWriter.WriteReceived` | ryll/src/capture.rs:86-96 | likewise for the server number |
| `ReportPcap.NewestWithinBudget` | ryll/src/bugreport.rs:302-320 | the cut keeps what fits, never splits a timestamp, and every earlier aligned start is over budget |
| `ReportPcap.BudgetCutUnique` | ryll/src/bugreport.rs:302-320 | only one cut has those properties |
| `ReportPcap.PcapSize` | ryll/src/bugreport.rs:302-320 | a file is 24 bytes, 16 a packet, and the packets |
| `ReportPcap.WriteNewestPcap` | ryll/src/bugreport.rs:325-362 | writes the cut, or nothing if and only if a kept packet is too long or its time does not fit the format; the summary counts exactly the packets and bytes written and omitted |
| `ReportPcap.WritePackets` | ryll/src/bugreport.rs:334-341 | writes every packet, or fails if and only if one is longer than the snap length or its time does not fit the format |
| `Inspector.Reassemble` | tools/pcap-inspect.py:95-129 | for every pair of ports the payloads between them, joined in order, and no other streams |
| `Inspector.Inspect` | tools/pcap-inspect.py:95-153 | the messages found in one half-stream are the parse of its joined payloads |
| `CaptureRoundTrip.TrafficBuffers.constructor` | ryll/src/bugreport.rs:456-466 | six rings with their caps, all empty |
| `CaptureRoundTrip.TrafficBuffers.RecordMessage` | ryll/src/bugreport.rs:521-607 | records on the named channel only, and nothing for a channel without a ring |
| `CaptureRoundTrip.TrafficBuffers.CollectSegments` | ryll/src/bugreport.rs:682-701 | the named rings' packets, merged by time with a stable sort |
| `CaptureRoundTrip.TrafficBuffers.DrainWithin` | ryll/src/bugreport.rs:707-742 | drains the budget cut of the merged packets; fails if and only if the format cannot hold a kept packet's time, never for a packet's length |
| `CaptureRoundTrip.AllWritable` | ryll/src/capture.rs:156-246 | no packet of a report is longer than the snap length |
| `CaptureRoundTrip.PortsAreUnique` | ryll/src/capture.rs:268-277 | the six channels' half-streams have different port pairs |
| `CaptureRoundTrip.PortNumbers` | ryll/src/capture.rs:268-277 | main, display, inputs, cursor, usbredir and playback have 10001, 10002, 10003, 10004, 10009 and 10099, the server 5900 |
| `CaptureRoundTrip.Rings` | ryll/src/bugreport.rs:400-466 | the six rings and the bytes each may hold |
| `CaptureRoundTrip.RingHoldsNewest` | ryll/src/bugreport.rs:159-169 | a ring holds the longest run of newest messages that 32 MiB for display, 2 MiB for inputs, 4 MiB for the others have room for, counted with their headers |
| `CaptureRoundTrip.GatheredInOrder` | ryll/src/bugreport.rs:682-695 | rings are gathered in the order named, so packets of equal times stay in it |
| `CaptureRoundTrip.CutBetweenEntries` | ryll/src/bugreport.rs:302-320 | a cut between timestamps falls between messages, never inside one |
| `CaptureRoundTrip.MergedHalfStream` | ryll/src/bugreport.rs:682-701 | of the merged packets, a half-stream's are its ring's entries, whole, stably sorted by time |
| `CaptureRoundTrip.SortKeepsEntriesWhole` | ryll/src/bugreport.rs:696-699 | sorting packets by time is sorting whole messages by time |
| `CaptureRoundTrip.ReportReads` | ryll/src/bugreport.rs:615-701 | whatever the times and the budget, the inspector reads exactly a half-stream's retained messages from the cut time on, each whole, in the order of time and then of recording |
| `CaptureRoundTrip.ReportReadsByPort` | ryll/src/bugreport.rs:615-701 | the same by number: which ports' half-streams read back as which channel and direction |
| `CaptureRoundTrip.ReportRoundTrip` | ryll/src/bugreport.rs:615-701 | capture round trip: if a half-stream's retained messages were recorded in time order, what the inspector reads is a suffix of all recorded on it, each whole and in order |
| `CaptureRoundTrip.RecordedOrderIff` | ryll/src/bugreport.rs:534-701 | with different messages, a half-stream reads back in the order recorded under every budget if and only if its retained times do not decrease |
| `CaptureRoundTrip.DecreasingTimesSwap` | ryll/src/bugreport.rs:534-701 | a concrete ring: two messages with decreasing times, nothing cut, read back swapped |
| `CaptureRoundTrip.ReadBack` | ryll/src/bugreport.rs:682-742 | collecting, cutting, writing, reassembling and walking, one after the other, yields exactly those messages, or nothing if and only if a kept time does not fit the format |
| `CaptureRoundTrip.LiveStream` | ryll/src/capture.rs:74-121 | whatever pieces a live writer is handed, a direction's half-stream of the file is all of that direction's bytes, joined in order |
| `CaptureRoundTrip.LiveStreamByPort` | ryll/src/capture.rs:74-121 | the same by number, for the five channels that have a file |
| `CaptureRoundTrip.LiveReads` | ryll/src/capture.rs:74-121 | if those bytes are messages followed by a torn one, exactly those messages read back, however the pieces cut them |
| `CaptureRoundTrip.LiveRoundTrip` | ryll/src/capture.rs:74-121 | a capture file whose records are one message each reads back as every message of each direction, in the order written, whatever the times |
| `Sorting.StableSortFilter` | ryll/src/bugreport.rs:696-699 | a stable sort and picking a part commute |
| `Sorting.SortedIffUnchanged` | ryll/src/bugreport.rs:696-699 | the stable sort changes nothing if and only if the order is already there |
| `Supervisor.TakeTurn` | ryll/src/rdp.rs:389-429 | one turn of the loop: attempt, retry decision, wait, ticket check |
| `Supervisor.Supervise` | ryll/src/rdp.rs:378-430 | the loop against any environment is the run on values |
| `Supervisor.SupervisorBounded` | ryll/src/rdp.rs:378-430 | with k sessions at most 3k+1 attempts and 21k seconds of backoff; with none one attempt and no wait |
| `Supervisor.SupervisorBoundsAreTight` | ryll/src/reconnect_policy.rs:75-118 | for every k some environment reaches both bounds |
| `Supervisor.EveryRetryIsGuarded` | ryll/src/rdp.rs:423-428 | every attempt after the first comes right after a check at a time before the ticket's end, and the ticket is not single-use |
| `Supervisor.NextStepMeans` | ryll/src/reconnect_policy.rs:75-118 | the retry decision in the policy's own fields: 1, 4 and 16 seconds while the ticket is usable, none within five minutes of having given up |
| `Supervisor.EveryRunFits` | ryll/src/rdp.rs:378-430 | over every run each event is what the environment and the policy say it must be: attempts numbered, waits of 1, 4 and 16 seconds by the failures in a row, and the end, its reason and its result |
| `Supervisor.UsableTicketNeverEnds` | ryll/src/rdp.rs:407-428 | a ticket good for several attempts and before its end at every time read never ends a run |
| `Supervisor.ExpiredMeans` | ryll/src/rdp.rs:423-428 | a run that ends with the ticket run out ends at the ticket's own end, by the last time read |
| `Supervisor.RunEndings` | ryll/src/rdp.rs:400-458 | running out of retries is always an error; a first attempt without a session ends the run with its own result; a single-use ticket is never retried |
| `SessionLink.Link.constructor` | ryll/src/rdp.rs:121-131 | a first link reads as up and routes nowhere |
| `SessionLink.Link.Began` | ryll/src/rdp.rs:147-153 | empties the mirror, takes the routes, reads as connected |
| `SessionLink.Link.Ended` | ryll/src/rdp.rs:167-174 | withdraws both routes and reads as down |
| `SessionLink.Link.PumpEvents` | ryll/src/rdp.rs:227-255 | hands every event on in order until the bus closes; begins at the first announcement, with the routes; reads as up from the first surface after it and not before, whether the bus is open or not |
| `SessionLink.RelayAll` | ryll/src/rdp.rs:182-207 | every item taken is delivered where it was routed or counted dropped; reports cover every drop but those after the last delivery |
| `SessionLink.DeliveriesInOrder` | ryll/src/rdp.rs:182-207 | each item offered to an open route that takes it is delivered there, in its place among the others, and no other |
| `SessionLink.TrailingMeans` | ryll/src/rdp.rs:182-207 | the drops not yet reported are those after the last delivery |
| `SessionRuns.RunInv` | ryll/src/rdp.rs:116-362 | every step of attempts, pump and relay keeps the invariant |
| `SessionRuns.BusKeepsOrder` | ryll/src/rdp.rs:227-255 | over every interleaving the bus is handed each attempt's events whole and in order |
| `SessionRuns.UpOnlyAfterSurface` | ryll/src/rdp.rs:155-255 | after an outage SPICE reads as up only once the current attempt's session start and then a surface were handed on |
| `SessionRuns.RoutedBeforeAnnounced` | ryll/src/rdp.rs:227-255 | over every interleaving, once an attempt's session start is on the bus its routes are in place |
| `SessionRuns.OutageIsVisible` | ryll/src/rdp.rs:133-174 | between attempts everything reads as down, and while a later attempt has no session there is nowhere to relay to |
| `SessionRuns.RelayConserves` | ryll/src/rdp.rs:182-207 | items taken are delivered plus dropped plus the one in hand; each is delivered if and only if it was not looked up in an outage and the queue took it, and then to the session routed when looked up |
| `SessionRuns.LateLookReachesNextSession` | ryll/src/rdp.rs:189-194 | a concrete run in which an item received in an outage reaches the next session, its route being looked up after that began |
| `Calendar.DaysToYmdCorrect` | ryll/src/auto_snapshot.rs:117-135 | for every day number a valid date whose Gregorian day count is that number |
| `Calendar.DaysToYmdInverse` | ryll/src/auto_snapshot.rs:117-135 | every valid date from 1970 on comes back from its day count |
| `Calendar.DayNumberStrictlyMonotonic` | ryll/src/auto_snapshot.rs:117-135 | an earlier date is exactly one with a smaller count |
| `Timestamp.LexicographicIffLeadingYear` | ryll/src/auto_snapshot.rs:104-115 | for any two times, names are in order exactly when the earlier year is not above the leading digits of the later |
| `Timestamp.ChronologyIsLexicographic` | ryll/src/auto_snapshot.rs:104-115 | up to the end of year 9999 names are ordered exactly as times are |
| `Timestamp.FourDigitYears` | ryll/src/auto_snapshot.rs:104-115 | the last second of the four-digit years is where it is said to be |
| `Timestamp.YearTenThousandOutOfOrder` | ryll/src/auto_snapshot.rs:104-115 | the next second sorts before it |
| `Timestamp.NameReadsBack` | ryll/src/auto_snapshot.rs:104-135 | any time reads back from its name: decimal fields with dashes between, from the year to the second |
| `Prune.PruneToCap` | ryll/src/auto_snapshot.rs:155-189 | deletes the shortest prefix of the sorted snapshots that leaves at most the files and the bytes allowed; the subtraction never saturates |
| `Prune.PruneIsChronological` | ryll/src/auto_snapshot.rs:95-189 | no snapshot is deleted while one of an earlier second is kept, up to year 9999 |
| `Prune.SameSecondByUptime` | ryll/src/auto_snapshot.rs:95-102 | of two names of one second the earlier's sorts first if and only if its whole seconds of uptime are at most the leading digits of the later's |
| `Prune.UptimeOrder` | ryll/src/auto_snapshot.rs:95-102 | the same for any two uptimes written with one decimal and followed by the same text |
| `Prune.LaterFirstInOneSecond` | ryll/src/auto_snapshot.rs:95-102 | in one second the snapshot at uptime 10.0 sorts before that at 9.9 |
| `Prune.PruneConserves` | ryll/src/auto_snapshot.rs:155-189 | deleted and kept together are exactly the listed files, as often as listed, whose names begin with ryll-auto-snapshot- and end with .zip; no other file is deleted |
| `Prune.SnapshotsAreNamed` | ryll/src/auto_snapshot.rs:95-102 | every name made for a snapshot is such a name |
| `Prune.NameOfSnapshot` | ryll/src/auto_snapshot.rs:92-102 | one whole name, as the example in the documentation has it |

## Left out

- Real time, the notification and the 100 ms wait of a cross-image lookup: a lookup is an oracle that finds the stored image or nothing. Nothing is claimed about an image inserted during the wait being picked up.
- GlzDictionary.TombstonesSound: says nothing of the other direction, that a missing id is tombstoned: a refused insert clears a tombstone and only 4096 are kept.
- GlzDictionary.SharedDictionary.InsertImage: is the insert that nothing falls into; overlapping inserts are `GlzInserts`. The log line of the first eviction is left out.
- GlzInserts.OverlapExact: one way only once more than 4096 ids have been evicted: the oldest tombstones are then dropped, which can hide a crossing.
- GlzSystem.InterleavingsAreSequential: a turn of a decoder, with its lookup, is one step; a lookup may miss an image that is present, which allows more than the code does.
- GlzDecoder.CopyBlock: source positions wrap at 2^64; other word sizes are not modelled. All other positions are below 2^28 plus a run length, and the overflow of a run length or output index of a stream longer than memory is not modelled.
- CaptureRoundTrip.ReportRoundTrip: takes the retained messages of the half-stream as recorded in time order; `CaptureRoundTrip.ReportReads` is the result without that, and `CaptureRoundTrip.RecordedOrderIff` says when the two agree.
- ReportPcap.WritePackets: which times the file format can hold is a parameter, since it depends on the encoding of its time field.
- SessionRuns.RelayConserves: whether a queue takes an item is its consumer's doing, and an input of the run.
- GuestKeys.ActionAgrees: is about events that get through; `GuestKeys.AgreementDespiteLosses` says what losses do.
- GuestKeys.GuestAgreement: is about one session, in which the window's own events and the cadence are all the guest hears; a paste is `PasteKeys`, any other sender `GuestKeys.AgreementBesideOthers`. A new session starts the translator afresh.
- PasteKeys.PasteAgreesIff: the switch that enables pasting, the table from characters to keys, the length cap and the delays are not modelled: a text is any list of mapped keys, each with or without Shift.
- PasteEnds.CancelLeaves: is about a paste with nothing else in between; with other events, `PasteKeys.RecordIsBelief` and `PasteEnds.ShiftFollows` say what the guest believes of the modifiers.
- Whether every press is eventually released without a focus loss: it depends on which host events come.
- The toolkit's key names are the wire's keys directly: the table from the one to the other is one-to-one and is not modelled on its own.
- Prune.PruneIsChronological: orders snapshots to the second; within one second see `Prune.SameSecondByUptime`. Uptimes are tenths of a second: their rounding from a float is not modelled.
- Contents of the surface mirror, which another task fills.
- Byte encodings and checksums of pcap, Ethernet, IP and TCP, and the times the inspector keeps beside its bytes: frames are records of ports, sequence numbers and payload.
- Deleting and listing files, writer threads and their queues: input and output. What a full queue of the live capture drops is not handed to its writer, and the live results are about what is.
- The message names and sizes kept beside each traffic entry, and views of recent entries: they only add easy members.
- Scroll wheel, streaming state, notifications, settings and the smoke tools.
- The supervisor's clock arithmetic: times are numbers read from the environment; the cluster rule of the retry decision is modelled but this caller never sets off its flap case.
