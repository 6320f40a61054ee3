# SoVaDesk: a Dafny model of its core and proofs about it

The model covers six parts of the system.

* **Stream splitters of the desktop agent.** An encoder's output arrives in pieces cut
  anywhere. Four readers turn it into frames: H.264 Annex B (`AnnexB`, `AnnexBTheorems`),
  WebP (`WebP`), IVF (`Ivf`) and JPEG (`Jpeg`). Each reader is a method over the list of
  reads, with the source's own buffer handling, resynchronisation and resets, and is proved
  against a one-shot reading of the whole stream. `Keyframes` has the LEB128 reader, the
  walk over AV1 OBUs, the bit reader and the VP9 header test.
* **Address books.** `Values`, `AddressBook`, `AddressBookLaws`, `DeviceScope`, `AdminTags`:
  merging books, filtering by device scope, injecting what the peers table knows. The loops
  are proved against functions on decoded JSON, and the algebra is proved about the functions.
* **Enrollment.** `EnrollmentService` has the server's handlers and `Enrollment` the agent's
  state and calls, as classes and as functions; `DeviceIds` and `Decimal` have the alternate
  ids, `EnrollmentTags` the tag list. `EnrollmentRuns` has runs of many agents, one server and
  an operator over a network that delays, reorders, repeats and loses messages, and
  `EnrollmentCalls` ties the agent's calls to them. `EnrollmentFrames` says what
  the handlers leave alone; `EnrollmentLaws`, `EnrollmentBans`,
  `EnrollmentSeparation` and `EnrollmentModes` say what keys, tokens, approvals, bans,
  removals, machine fingerprints and changes of mode achieve; `EnrollmentScripts` builds runs.
* **Signed management handshake.** `Handshake`: the clock-skew window, the purging nonce
  cache, and runs of attempts.
* **Codec negotiation.** `Negotiation`: request, pin, operator decoders, probe.

Conventions. A reader is a sequence of chunks, one for each read, empty ones included; the
end of the file, a read error and a cancelled context all end the sequence. Delivered frames
are the method's result. `int` in the source is taken as 64 bits wide. A `len` cap is a named
constant. Strings are sequences of characters; case folding covers the ASCII letters.

Where the code differs from its comments or from what a reader might expect, the model
follows the code:

* The Annex B reader never delivers the last NAL unit of a stream, because it waits for the
  next start code. `AnnexBTheorems.RoundTrip` says exactly what is delivered.
* The WebP reader skips four bytes after a false RIFF although the comment says one. The two
  deliver the same files, for every stream and cutting (`WebP.ReadWebPFrames`).
* A read boundary inside an SOI loses a JPEG. `Jpeg.RecoveredIff` gives the exact condition.
* The AV1 walk leaves the frame, which panics, on a frame that ends in a lone header byte
  with both the extension and the size flag (`Ivf.LoneHeaderStops`).
  `Keyframes.OutOfRangeIff` is exact.
* Soft-deleted peers stay in an address book although the comment says they are stripped,
  and so do banned ones when no listed peer is live (`AdminTags.SoftDeletedStays`,
  `AdminTags.LoneBannedStays`). `AdminTags.StrippedIff` gives the exact condition.
* A ban does not keep a device from registering, and a removal does not either; the two
  together do, for good (`EnrollmentBans.RefusedIff`, `EnrollmentBans.BanBlocksIff`,
  `EnrollmentBans.MarkedRefusedIff`, `EnrollmentBans.RevokedForGood`).
* A locked server admits a device with any token of its table: revoked, past its date, used up,
  or bound to another device (`EnrollmentLaws.InvalidTokensAdmit`). The exact conditions are
  `EnrollmentLaws.LockedNeedsValidIff` and `EnrollmentLaws.LockedOwnTokenIff`.
* Approving a removed device succeeds and has no effect on it (`EnrollmentLaws.RemovedApproved`).
* A pending record keeps no uuid, key or device type (`EnrollmentLaws.ManagedForgets`), so in
  managed mode an identity conflict is never reported. `EnrollmentSeparation.SeparatesIff` says
  exactly when machines are kept apart.
* A change from managed to open mode lets a device be pending and known at once, and mixing the
  two modes lets a late answer leave an agent with the token of another id
  (`EnrollmentModes.AlwaysApartIff`, `EnrollmentModes.AlwaysBoundIff`); calls that do not
  overlap are safe in any mode (`EnrollmentCalls.EnsureSound`).
* A rejected device never learns it: the answer comes with an error code
  (`EnrollmentRuns.NeverRejected`).
* The skew test uses a saturating 64-bit duration. `Handshake.AtMostOnceIff` gives the exact
  range of stamps for which a handshake is accepted at most once, and
  `Handshake.FarStampAcceptedTwice` a request beyond it.
* The agent's `itoa` prints every integer but the smallest (`Decimal.Itoa`).

## Model

| member | source | states |
|---|---|---|
| AnnexB.IndexStartCode | sova-agent/agent/codec_framing.go:210-222 | the loop finds the first 3- or 4-byte start code at or after an offset, or -1 |
| AnnexB.FirstCodeIsFirst | sova-agent/agent/codec_framing.go:208-222 | the search result is a start code and no earlier position from the offset on is one |
| AnnexB.FirstCodeStable | sova-agent/agent/codec_framing.go:146-152 | a start code found stays the first one, with the same length, however the buffer grows |
| AnnexB.NalsAppend | sova-agent/agent/codec_framing.go:143-191 | parsing may stop anywhere: the NAL units of b + c are those of b, then those of what b left over followed by c |
| AnnexB.NalsConserve | sova-agent/agent/codec_framing.go:146-191 | from the first start code on, the stream is exactly its NAL units followed by the rest; nothing is lost or invented |
| AnnexB.RestHasOneCode | sova-agent/agent/codec_framing.go:152-159 | what stays in the buffer starts at the last start code of the stream: the last NAL unit is never consumed |
| AnnexB.Accept | sova-agent/agent/codec_framing.go:161-189 | the switch over one NAL unit makes the step of the accumulator, flushing a unit that has its slice before a unit-opening NAL |
| AnnexB.RestIsDry | sova-agent/agent/codec_framing.go:152-159 | what is left over holds no complete NAL unit |
| AnnexB.Extract | sova-agent/agent/codec_framing.go:146-191 | the inner loop consumes exactly the complete NAL units of the buffer, in order, and leaves the rest, which holds none |
| AnnexB.ReadAnnexBFrames | sova-agent/agent/codec_framing.go:110-206 | the reader, resets included, delivers the units of the NAL units it consumes, with the flush at the end |
| AnnexBTheorems.ChunkIndependence | sova-agent/agent/codec_framing.go:130-206 | for every cutting the delivered units are those of the stretches between resets, each parsed in one go, and the stretches make up the stream; without a reset they are those of the whole stream whatever the cutting |
| AnnexBTheorems.GroupingExists | sova-agent/agent/codec_framing.go:105-109 | every list of NAL units has a grouping: one slice (type 1 or 5) in each group, types 6, 7, 8 only before it, groups opened by types 1, 5 to 8, and a tail without slices |
| AnnexBTheorems.UnitsAreGroups | sova-agent/agent/codec_framing.go:119-189 | the delivered units are one for each group of any such grouping, in order, with its bytes, and the key flag set iff it holds a type 5 or 7 NAL; so the grouping is determined |
| AnnexBTheorems.UnitsConserve | sova-agent/agent/codec_framing.go:119-205 | delivered bytes, then NAL units that are no slices, then the rest, are exactly the stream from its first start code |
| AnnexBTheorems.NalsOfPrint | sova-agent/agent/codec_framing.go:146-195 | printing NAL payloads without 00 00 00 and 00 00 01 inside and 00 at the end, with any start code lengths, parses back to all NAL units but the last |
| AnnexBTheorems.CutsAreShort | sova-agent/agent/codec_framing.go:202-204 | wherever a printed stream of NAL units of at most 32 MiB less 3 bytes is cut, what is left over fits the cap, so the reset is not taken |
| AnnexBTheorems.RoundTrip | sova-agent/agent/codec_framing.go:110-206 | printing and splitting under every cutting without a reset delivers the access units of all NAL units but the last |
| AnnexBTheorems.ShortRoundTrip | sova-agent/agent/codec_framing.go:202-204 | with NAL units of at most 32 MiB less 3 bytes that is so for every cutting |
| WebP.ScanSkips | sova-agent/agent/codec_framing.go:56-80 | positions without RIFF may be skipped by the one-byte scan |
| WebP.NoOverlap | sova-agent/agent/codec_framing.go:70-80 | after a RIFF the next three positions hold none |
| WebP.ResyncKeeps | sova-agent/agent/codec_framing.go:70-80 | skipping four bytes after a rejected RIFF delivers what the one-byte skip delivers, whatever follows |
| WebP.TruncateKeeps | sova-agent/agent/codec_framing.go:57-62 | keeping the last four bytes of a buffer without RIFF never loses the start of one |
| WebP.Extract | sova-agent/agent/codec_framing.go:55-88 | the inner loop delivers every complete file, and the buffer it leaves holds none and is at most 32 MiB |
| WebP.ReadWebPFrames | sova-agent/agent/codec_framing.go:38-101 | for every stream and every cutting the reader delivers what the one-byte scan finds in the whole stream; the 48 MiB reset is never reached |
| WebP.FilesRecovered | sova-agent/agent/codec_framing.go:35-37 | concatenated RIFF files of acceptable length are recovered exactly |
| WebP.ScanFindsFiles | sova-agent/agent/codec_framing.go:64-87 | the delivered frames are disjoint stretches of the stream, in order, each announced by the first RIFF, length and WEBP mark after the one before; after the last no header announces a file that is all there |
| Ivf.IsVideoKeyframe | sova-agent/agent/codec_framing.go:302-310 | the flag is the VP9 or AV1 test of the frame, false for other codecs |
| Ivf.Extract | sova-agent/agent/codec_framing.go:267-285 | the inner loop delivers exactly the complete frames, stopping at an oversized length or a failing test |
| Ivf.ReadIVFFrames | sova-agent/agent/codec_framing.go:237-296 | for every stream and cutting the delivered frames, flags and way of stopping equal the one-shot parse of the whole stream |
| Ivf.RoundTrip | sova-agent/agent/codec_framing.go:234-296 | muxing frames of at most 32 MiB behind any DKIF header and demuxing gives them back with their flags, if and only if the key frame test fails on none |
| Ivf.OversizedStops | sova-agent/agent/codec_framing.go:271-275 | after muxed frames an oversized length makes the reader give up with exactly those frames, whatever follows |
| Ivf.LoneHeaderStops | sova-agent/agent/codec_framing.go:276-282 | a concrete AV1 file on whose one frame the reader fails |
| Keyframes.ReadLeb128 | sova-agent/agent/codec_framing.go:373-382 | decoding succeeds iff an encoding of at most eight bytes is a prefix, and returns its value and length |
| Keyframes.LebRoundTrip | sova-agent/agent/codec_framing.go:372-382 | any value below 2^56 comes back from its encoding followed by any bytes |
| Keyframes.Av1IsKeyframe | sova-agent/agent/codec_framing.go:339-370 | the loop computes the OBU walk, the slice past the end included |
| Keyframes.WalkAll | sova-agent/agent/codec_framing.go:339-370 | on well-formed OBUs followed by anything, the answer is key iff one is a sequence header, else what follows decides |
| Keyframes.TemporalUnit | sova-agent/agent/codec_framing.go:335-338 | a temporal unit, its last OBU possibly without size field, is a key frame iff one OBU has type 1 |
| Keyframes.OutOfRangeIff | sova-agent/agent/codec_framing.go:350-355 | the walk slices past the frame iff well-formed OBUs, none a sequence header, are followed by a lone header byte with extension and size flags |
| Keyframes.LoneHeaderFails | sova-agent/agent/codec_framing.go:350-355 | the shortest such frame, one byte |
| Keyframes.BitReader.Read | sova-agent/agent/codec_framing.go:390-404 | reading n bits returns them as a 32-bit number, zeros past the end, and advances the position by n |
| Keyframes.BitsCompose | sova-agent/agent/codec_framing.go:390-404 | reading a and then b bits is one read of a + b bits in 32-bit arithmetic |
| Keyframes.BitsConcatenate | sova-agent/agent/codec_framing.go:390-404 | up to 32 bits, the two reads are the high and the low part of the one |
| Keyframes.Vp9IsKeyframe | sova-agent/agent/codec_framing.go:316-333 | the bit-by-bit test equals a condition on the first byte alone |
| Jpeg.Extract | sova-agent/agent/desktop.go:613-635 | the inner loop takes the complete frames of the buffer and keeps the unfinished one, or nothing |
| Jpeg.ReadJPEGFrames | sova-agent/agent/desktop.go:592-649 | the reader delivers the frames of each buffer, resets and dropped bytes included |
| Jpeg.Slices | sova-agent/agent/desktop.go:590-649 | for every cutting the delivered frames are disjoint stretches of the stream, in order, each from an SOI to the first EOI after it |
| Jpeg.RunConserves | sova-agent/agent/desktop.go:592-649 | no byte is delivered twice |
| Jpeg.PrefixParsed | sova-agent/agent/desktop.go:613-635 | a beginning of concatenated JPEGs yields the whole ones and keeps the begun one, except a single FF |
| Jpeg.RecoveredIff | sova-agent/agent/desktop.go:592-649 | concatenated JPEGs are recovered exactly iff no read boundary lies between the bytes of an SOI or more than 8 MiB into a frame |
| Jpeg.SoiCutLosesFrame | sova-agent/agent/desktop.go:614-617 | a concrete stream that is recovered in one piece and lost when cut inside its SOI |
| Values.UnionTags | sova-server/api/address_book_merge.go:149-162 | the loop yields the first occurrences, in order, of the non-empty trimmed strings of both values |
| Values.UnionAssociative | sova-server/api/address_book_merge.go:149-183 | uniting tags is associative, and uniting the same tags again changes nothing |
| AddressBook.MergePeerMaps | sova-server/api/address_book_merge.go:87-110 | the loops, in any key order, keep base values that are not empty, fill the empty ones, unite tags |
| AddressBook.PeerAssociative | sova-server/api/address_book_merge.go:87-110 | merging peers is associative |
| AddressBook.MergePeerLists | sova-server/api/address_book_merge.go:61-80 | the index-driven loops merge each overlay peer into the last base peer with its id, append new ones as they are, skip those without id |
| AddressBook.MergeAddressBookMaps | sova-server/api/address_book_merge.go:53-85 | merging in place changes peers and tags of the base and no other field; a missing overlay changes nothing |
| AddressBook.PeersAssociative | sova-server/api/address_book_merge.go:61-80 | merging peer lists is associative, repeated and missing ids included |
| AddressBookLaws.MergeAssociative | sova-server/api/address_book_merge.go:53-85 | merging books is associative, for all books |
| AddressBookLaws.OneMergeSuffices | sova-server/api/address_book_merge.go:18-25 | merging overlays one by one equals one merge with the overlays merged beforehand |
| AddressBookLaws.BaseKept | sova-server/api/address_book_merge.go:15-17 | ids stay distinct, base peers stay where they are with every value that is not empty |
| AddressBook.PeerIdempotentIff | sova-server/api/address_book_merge.go:95-98 | merging a peer with itself changes nothing iff its tags are trimmed, non-empty and distinct |
| AddressBookLaws.MergeIdempotentIff | sova-server/api/address_book_merge.go:53-85 | for all books: merging an overlay twice equals merging it once iff, for every id new to the base, its first peer has its tags in that form or a later one of the id brings tags |
| AddressBookLaws.OverlayArrives | sova-server/api/address_book_merge.go:69-80 | the merged peer of an overlay peer's id has a value wherever that one has, and all its tags |
| AddressBookLaws.NoOtherIds | sova-server/api/address_book_merge.go:61-80 | every id of a merged list is of the base or of the overlay |
| DeviceScope.FilterAddressBookPeersByVisibleSet | sova-server/api/address_book_merge.go:264-288 | the loop keeps the peers in scope; no restriction keeps the book |
| DeviceScope.FilterKeeps | sova-server/api/address_book_merge.go:261-288 | kept peers keep their order, and a peer is kept iff it has an id that is visible or unknown to the server |
| DeviceScope.FilterDistributes | sova-server/api/address_book_merge.go:53-85 | filtering the merge of two books equals merging the two filtered books, for all books |
| AdminTags.InjectOne | sova-server/api/client_api_handlers.go:697-754 | one live peer gets missing host data and the admin tags it lacks; the global list grows alike |
| AdminTags.InjectAll | sova-server/api/client_api_handlers.go:680-755 | the loop drops banned peers, injects live ones, and reports whether anything was to do |
| AdminTags.MergeAdminTagsIntoAB | sova-server/api/client_api_handlers.go:590-782 | in place: unchanged when no listed peer is live or nothing is to do, else peers and tags rewritten |
| AdminTags.ExtendAddsMissing | sova-server/api/client_api_handlers.go:742-752 | added tags are missing before and are added once |
| AdminTags.InjectedTags | sova-server/api/client_api_handlers.go:719-753 | a live peer's string tags are its old ones in order followed by the missing admin tags |
| AdminTags.InjectedHostData | sova-server/api/client_api_handlers.go:697-717 | host name, platform and user of a live peer are its own when present and not empty, else the row's; other fields stay |
| AdminTags.KeptMembers | sova-server/api/client_api_handlers.go:680-755 | what is left are exactly the peers not banned, each with its additions |
| AdminTags.AfterInjection | sova-server/api/client_api_handlers.go:578-589 | for every book: with a live peer listed the peers left and the global tags are those, no banned peer among them, without one both stay; peers without a row in the query and all other fields stay as they are |
| AdminTags.MergeIdempotent | sova-server/api/client_api_handlers.go:590-782 | for a fixed peers table injecting twice is injecting once |
| AdminTags.BannedIff | sova-server/api/client_api_handlers.go:649-653 | a listed peer counts as banned iff its row is banned and not soft-deleted, as live iff it is neither |
| AdminTags.StrippedIff | sova-server/api/client_api_handlers.go:649-672 | the book comes out free of banned and soft-deleted peers iff no listed peer is soft-deleted and, unless a listed peer is live, none is banned |
| AdminTags.LoneBannedStays | sova-server/api/client_api_handlers.go:670-672 | a concrete book whose only peer is banned keeps it |
| AdminTags.SoftDeletedStays | sova-server/db/sqlite.go:798-805 | a concrete book keeps a soft-deleted banned peer beside a live one, against the remark that it is stripped |
| EnrollmentTags.NormalizeEnrollmentTags | sova-server/api/branding_handlers.go:743-761 | the loop joins the trimmed, non-empty, first occurrences of the comma-separated parts |
| EnrollmentTags.StoredTagsReadBack | sova-server/api/branding_handlers.go:502-506 | splitting the stored list where address books are served gives the same tags back; cleaning again changes nothing |
| Decimal.Itoa | sova-agent/agent/codec.go:609-629 | digits filled into a 20-byte buffer print every 64-bit integer but the smallest |
| Decimal.PrintRead | sova-server/api/branding_handlers.go:820-823 | reading a printed 64-bit integer gives it back |
| DeviceIds.NextForm | sova-server/api/branding_handlers.go:814-826 | a suggested id counts up by one; past the largest integer it takes the wrapped number, after that a new suffix |
| DeviceIds.NextClimbs | sova-server/api/branding_handlers.go:814-826 | from a suggested id the next suggestion is longer, or as long with a larger suffix, integer overflow included |
| DeviceIds.NeverRepeats | sova-support-agent/enrollment.go:144-153 | the ids tried after successive conflicts are pairwise different |
| DeviceIds.ConflictCounts | sova-support-agent/enrollment.go:144-153 | each conflict uses up one id of the peers table that the chain may still meet |
| EnrollmentService.EnrollmentServer.HandleDeviceRegister | sova-server/api/branding_handlers.go:152-333 | the handler's new state and answer in every mode: malformed, conflict, key mismatch, known device, ban, open, managed, locked with and without token |
| EnrollmentService.EnrollmentServer.AnswerKnownDevice | sova-server/api/branding_handlers.go:177-227 | for a known device: conflict, key check and first binding, else its settings and a new token |
| EnrollmentFrames.RegisterOnly | sova-server/api/branding_handlers.go:152-333 | a registration changes only things of the device it is about: no other row, pending entry or key, no other device comes to own a token, no mark is set or lifted |
| EnrollmentFrames.ApproveFrame | sova-server/api/branding_handlers.go:464-509 | an approval creates or updates one row without uuid and key, sets note, tags and settings as chosen, ends the pending entry, and changes nothing else |
| EnrollmentLaws.StoredKeyLoads | sova-server/api/bd_mgmt_handlers.go:103-133 | a key that is stored is the one loaded again unless the row has another of its own, and no other device's key changes |
| EnrollmentService.EnrollmentServer.HandleDeviceRegisterStatus | sova-server/api/branding_handlers.go:337-402 | peer, pending, rejected (403) or unknown (404), in this order; a known peer gets its settings and a new token |
| EnrollmentService.EnrollmentServer.HandleApproveDevice | sova-server/api/branding_handlers.go:437-535 | a pending device becomes a peer without uuid, with sync mode, display name, note and tags as chosen, and is pending no more; errors change nothing |
| EnrollmentService.EnrollmentServer.HandleRejectDevice | sova-server/api/branding_handlers.go:539-583 | pending entry removed, rejection stored, an existing row banned on request |
| EnrollmentService.EnrollmentServer.HandleDeletePeer | sova-server/api/server.go:1104-1177 | the device and the linked ones given are marked removed, or deleted for good when hard; a revocation bans their rows and puts their ids on the blocklist |
| EnrollmentService.EnrollmentServer.IssueEnrollmentDeviceToken | sova-server/api/branding_handlers.go:631-654 | a new token is stored for the id; drawing or storing may fail and then changes nothing |
| EnrollmentService.EnrollmentServer.CreatePeerFromEnrollment | sova-server/api/branding_handlers.go:656-686 | insert or update of the row and its key; empty values keep the stored ones, the address is replaced, the device type defaults, ban and removal stay |
| EnrollmentService.EnrollmentServer.UpdatePeerFields | sova-server/db/sqlite.go:1176-1196 | given fields are set unless the row is soft-deleted |
| EnrollmentLaws.FirstKeyWins | sova-server/api/branding_handlers.go:193-204 | after any calls of the enrollment handlers by anybody, in whatever modes, a bound key stays bound while the device is not deleted, and a registration with another key is refused and changes nothing |
| EnrollmentLaws.FirstKeyIsBound | sova-server/api/branding_handlers.go:201-203 | a known device without key is bound to the one it sends iff its uuid does not conflict |
| EnrollmentLaws.LockedAdmitsIff | sova-server/api/branding_handlers.go:293-323 | in locked mode an unknown device is admitted iff it is not banned and shows a token of the table, valid or not; the use is counted, and an unused token is bound to it |
| EnrollmentLaws.LockedNeedsValidIff | sova-server/db/sqlite.go:1931-1962 | that a valid token is required (not revoked, not past its date, uses left) holds of a locked server at a time iff its table has only valid ones |
| EnrollmentLaws.LockedOwnTokenIff | sova-server/api/branding_handlers.go:296-303 | every device a locked server admits shows an unused token or its own iff all tokens of its table are unused |
| EnrollmentLaws.UsesCounted | sova-server/db/sqlite.go:1921-1929 | over any calls the use count of a token grows by exactly one for each device it admits; its limit does not stop them |
| EnrollmentLaws.InvalidTokensAdmit | sova-server/api/branding_handlers.go:296-303 | concrete locked servers that admit a device with a revoked token, with one past its date, and with another device's used single-use invite |
| EnrollmentLaws.ApprovalArrives | sova-server/api/branding_handlers.go:482-509 | approving makes a device known iff it has no soft-deleted row; then its answers carry the sync mode and display name chosen, and address books read the tags chosen |
| EnrollmentLaws.ManagedForgets | sova-server/api/branding_handlers.go:688-720 | from registration to approval, the row of a new device gets all it says of itself but the device type, and no uuid and no key |
| EnrollmentLaws.RemovedApproved | sova-server/api/branding_handlers.go:482-509 | a concrete removed device that is approved with 200 and then answered as unknown |
| EnrollmentBans.RefusedIff | sova-server/api/branding_handlers.go:229-240 | a registration is refused as banned iff the id's row is banned and soft-deleted, for all states and requests |
| EnrollmentBans.BanBlocksIff | sova-server/api/branding_handlers.go:557-562 | rejecting with a ban blocks later registrations iff the id has a soft-deleted row |
| EnrollmentBans.MarkedRefusedIff | sova-server/api/branding_handlers.go:229-230 | that banned or soft-deleted devices are refused holds of a server iff each such row is both |
| EnrollmentBans.KnownBannedServed | sova-server/api/branding_handlers.go:177-227 | a concrete known banned device gets 200 and a new token, in every mode |
| EnrollmentBans.PendingBannedReturns | sova-server/api/branding_handlers.go:557-562 | a concrete pending device, rejected with a ban, registers again |
| EnrollmentBans.RemovedReturns | sova-server/api/branding_handlers.go:229-253 | a concrete removed device that is not banned is enrolled again in open mode |
| EnrollmentBans.BanTellsIff | sova-server/api/branding_handlers.go:557-562 | rejecting with the ban and without it leads to the same answers to every registration and poll iff the id has no row that is soft-deleted and not banned yet |
| EnrollmentBans.BansChangeNothing | sova-server/api/branding_handlers.go:557-562 | a run without removals, through whatever modes, is a run with the same agents and messages when all bans are taken out |
| EnrollmentBans.RevokedForGood | sova-server/api/server.go:1133-1138 | after a device is revoked, whatever enrollment handler is called by whom and in whatever mode, it is refused and no token is issued for it, unless its row is deleted for good |
| EnrollmentBans.RemovedStaysOut | sova-server/api/branding_handlers.go:261-274 | in managed mode a removed device, banned or not, is never known again and no token is issued for it, whatever enrollment handler is called by whom, approvals included |
| Enrollment.AppState.SetEnrollment | sova-support-agent/state.go:297-309 | status and message set, id and token replaced only by non-empty ones, the file written |
| Enrollment.AppState.SetEnrollmentMessage | sova-support-agent/state.go:312-317 | the message set, the file written |
| Enrollment.AppState.SetDeviceId | sova-support-agent/state.go:349-357 | new id, enrollment cleared, the file written |
| Enrollment.AppState.ResetEnrollmentState | sova-support-agent/state.go:320-331 | the state of the file with status, token and message cleared, the id kept, written back |
| Enrollment.RegisterDevice | sova-support-agent/enrollment.go:98-188 | the recursive call terminates and equals its specification on server and agent state; the file stays what is in memory |
| Enrollment.PollEnrollment | sova-support-agent/enrollment.go:191-243 | 404 and an approval without token lead to registration, 403 to an error, the rest as specified |
| Enrollment.EnsureEnrolled | sova-support-agent/enrollment.go:38-95 | the four-way dispatch, the cached token after a failed refresh included |
| Enrollment.RegisterStops | sova-support-agent/enrollment.go:144-153 | the retry stops at the first id of the chain that does not conflict, with the result of one registration there |
| Enrollment.ConflictsBounded | sova-support-agent/enrollment.go:144-153 | there are at most as many conflicts as peers |
| EnrollmentRuns.StepKeeps | sova-server/api/branding_handlers.go:176-293 | every step of the protocol keeps the invariant |
| EnrollmentRuns.AlwaysSafe | sova-server/api/branding_handlers.go:345-362 | in every run, removals and changes of mode included: every token is bound to a row, each agent's token is stored, approved implies a token, no two agents hold the same; and as far as the modes allow, pending ids are not known and tokens are bound to current ids |
| EnrollmentModes.AlwaysApartIff | sova-server/api/token_handlers.go:457-480 | no pending id is ever known as a peer, in all runs through given modes, iff open mode never comes after managed mode |
| EnrollmentModes.AlwaysBoundIff | sova-support-agent/enrollment.go:162-187 | each agent's token is always bound to its current id, however late answers arrive, iff open and managed mode do not occur together |
| EnrollmentModes.ReopeningOverlaps | sova-server/api/branding_handlers.go:242-264 | a run in which a device is pending and known, wherever the modes allow it |
| EnrollmentModes.LatePendingUnbinds | sova-support-agent/enrollment.go:172-175 | a run in which a late pending answer leaves an agent with the token of another id |
| EnrollmentModes.LateTokenUnbinds | sova-support-agent/enrollment.go:223-229 | such a run with open mode first |
| EnrollmentRuns.EnrolledMeans | sova-support-agent/state.go:333-338 | in every run an agent is enrolled iff its status is approved, and then its token is stored for a row; unless open and managed mode mix, for its id; without open mode an operator approved that before |
| EnrollmentRuns.NeverRejected | sova-support-agent/enrollment.go:75-81 | in every run, whatever the modes, no agent reaches the status rejected, so this branch is not reached |
| EnrollmentRuns.ApprovedEarlier | sova-server/api/branding_handlers.go:464-509 | in runs without open mode every peer and every token's owner was approved by an earlier step |
| EnrollmentRuns.ClosedNeverConflicts | sova-server/api/branding_handlers.go:688-708 | in runs of the enrollment handlers without open mode no registration is answered with an identity conflict |
| EnrollmentCalls.EnsureSound | sova-support-agent/enrollment.go:61-94 | whatever path EnsureEnrolled takes and whatever the mode, called by itself: a token it reports as approved is stored for the id it reports, and the agent's token for its current id |
| EnrollmentCalls.RegisterIsRun | sova-support-agent/enrollment.go:98-188 | RegisterDevice with all its retries is a run of the protocol, so the invariant covers it |
| EnrollmentCalls.PollIsRun | sova-support-agent/enrollment.go:191-243 | so is PollEnrollment with the registration it may fall back to |
| EnrollmentCalls.RegisteredPends | sova-server/api/branding_handlers.go:261-274 | registering in managed mode makes the agent pending, and asking again keeps it so |
| EnrollmentCalls.ApprovedEnrolls | sova-server/api/branding_handlers.go:344-362 | once approved, the agent's next call enrolls it with the token drawn, bound to its id |
| EnrollmentCalls.RejectedFails | sova-support-agent/enrollment.go:213-215 | once rejected, with or without ban, the agent's next call fails and leaves it pending |
| EnrollmentCalls.OpenEnrolls | sova-server/api/branding_handlers.go:243-253 | in open mode the first registration enrolls the agent under its own uuid |
| EnrollmentSeparation.SeparatesIff | sova-server/api/branding_handlers.go:177-191 | in runs of the enrollment handlers through given modes, agents that hold tokens for one id always run on one machine iff managed mode does not occur and, if open mode does, all machines have fingerprints, agents poll only while pending, and no device is removed |
| EnrollmentSeparation.ManagedMixes | sova-server/api/branding_handlers.go:688-708 | a run in which two machines hold tokens for one id, wherever managed mode occurs |
| EnrollmentSeparation.BlankUuidMixes | sova-server/api/branding_handlers.go:180 | a run, wherever open mode occurs, that mixes machines because one has no fingerprint |
| EnrollmentSeparation.PollingMixes | sova-server/api/branding_handlers.go:344-362 | a run, wherever open mode occurs, that mixes machines because an agent polls without being pending |
| EnrollmentSeparation.RemovalMixes | sova-server/api/branding_handlers.go:241-253 | a run, wherever open mode occurs, that mixes machines because a device was removed |
| Handshake.InWindowIff | sova-server/api/bd_mgmt_handlers.go:147-154 | the window test, with saturating durations, passes within the skew and for stamps 2^63 ns or more ahead |
| Handshake.NonceCache.MarkUsed | sova-server/api/bd_mgmt_handlers.go:73-86 | expired entries are purged, a known key is reported, a new one stored with its expiry |
| Handshake.VerifyBdMgmtRequest | sova-server/api/bd_mgmt_handlers.go:135-180 | the checks in order, and the cache touched only after all others pass |
| Handshake.AtMostOnce | sova-server/api/bd_mgmt_handlers.go:32-36 | with a life time of at least twice the skew, no run with a clock that does not go back accepts one device, stamp and nonce twice, under whatever signature texts, the stamp being less than 2^63 ns ahead |
| Handshake.ShorterLifeFails | sova-server/api/bd_mgmt_handlers.go:33-34 | the bound is tight: with any shorter life time some run accepts a signed request twice |
| Handshake.AtMostOnceIff | sova-server/api/bd_mgmt_handlers.go:135-180 | with the source's limits the device, stamp and nonce of a complete request are accepted at most once in all runs from a start time iff the stamp is less than 2^63 ns ahead of it |
| Handshake.FarStampAcceptedTwice | sova-server/api/bd_mgmt_handlers.go:147-154 | a concrete request with a stamp 2^63 ns ahead is accepted twice |
| Negotiation.ResolveEncoder | sova-agent/agent/codec.go:292-318 | the first candidate admitted by the hardware preference that passed the probe |
| Negotiation.VideoCapabilities | sova-agent/agent/codec.go:259-277 | the advertised list: allowed video codecs with a working encoder, webp if available, mjpeg last |
| Negotiation.SelectEncoder | sova-agent/agent/codec.go:348-414 | request, pin and order are one list of wishes; the first that can be produced, else MJPEG |
| Negotiation.SelectionGood | sova-agent/agent/codec.go:339-347 | the plan is MJPEG or decodable, advertised when capture is on, the pin or MJPEG when pinned, and its encoder admitted and probed |
| Negotiation.HardwareFirst | sova-agent/agent/codec.go:90-99 | a software encoder is chosen only when no admitted hardware encoder works |
| Negotiation.AutomaticChoice | sova-agent/agent/codec.go:404-413 | without request and pin the first feasible entry of codecOrder, MJPEG when there is none or no codec list |
| Negotiation.SelectionImproves | sova-agent/agent/codec.go:339-414 | the chosen wish never moves down the list as the operator decodes more and more encoders work, starting from no codec list at all |

## Left out

- EnrollmentService.EnrollmentServer.CreatePeerFromEnrollment: online status, NAT type, heartbeat, time stamps and the disabled mark, which the row update resets and no enrollment handler reads.
- EnrollmentService.EnrollmentServer.HandleDeletePeer: closing open connections, the message to the gateway, and the reserved old ids that a hard deletion releases; the linked devices are given. Restoring a removed device, an explicit operation elsewhere, is no step of the model.
- EnrollmentLaws.FirstKeyWins: of the enrollment handlers. The signal server's own registration, which writes the uuid and the key of a row too (sova-server/signal/handler.go:486-497), is not part of this model.
- EnrollmentRuns.ClosedNeverConflicts: of the enrollment handlers, for the same reason.
- EnrollmentSeparation.SeparatesIff: of the enrollment handlers, for the same reason.
- Enrollment.AppState.SetEnrollment: writing the state file succeeds, as for the other setters; encryption of the file and the fields for access and language are not modelled.
- Process handling, capture, input, clipboard, audio, WebSocket and HTTP transport, TLS: foreign processes and OS calls. A failed HTTP call leaves agent and server as they were and is no step of the model.
- JSON text: books and messages are decoded values; empty, unparsable and unmarshalable text, for which the source returns its input, is not part of the model. Numbers are reals.
- Cryptography: whether a signature verifies is given with each attempt; token hashing is taken as injective; drawn tokens are 32 hexadecimal digits; a public key is its canonical text or malformed.
- Goroutines and locks: each locked section or handler is one atomic step.
- Database errors, except a failing token issue; audit log and events. The texts of messages are named, not spelled out, and all agents of a run describe their machine alike.
- Requests in runs are those of the agent, which sends neither a public key nor an enrollment token; EnrollmentLaws and EnrollmentBans cover calls of the handlers by anybody. Runs remove devices softly and one at a time; hard deletion and linked devices are covered there too.
- Peer maps in an address book are values: that an appended overlay peer and the base share one map afterwards is not captured. Books are objects changed in place.
- Widths of int other than 64 bits, where the size tests of the WebP and IVF readers could see negative numbers.
- `v |= x << 7*i` in readLeb128 is modelled as a sum, since the value so far is below 128^i.
- Encoder probing is a set of working encoder names. Encoder arguments and quantiser maps are chosen after the codec and the encoder and do not influence either.
- Frame headers, image dimensions and the WebSocket framing of frames: they wrap delivered frames and do not change which frames are delivered.
- The management hub's session replacement, billing, relay, signal, CDAP gateway, web console, installers and bridges.
