# Madis: verified models of the sidecars and the worker's in-memory state

Madis is a SIP signaling worker with two Python sidecars: a Diameter home
subscriber server used in the lab, and a media relay. This project models the
parts of it that keep state, parse bytes or rewrite messages, and proves what
those parts are relied on for. `dafny verify dfyconfig.toml` verifies the whole
project.

| files | what they model |
|---|---|
| `Text`, `Arithmetic`, `PythonInt` | optional and fallible results, octets, splitting, trimming, decimal text, Python's `int()`, remainders |
| `Diameter`, `Framing`, `WireLayouts` | the AVP and message codec of `lab/ims_hss.py` (RFC 6733, sections 3 and 4.1) and message framing over a chunked stream |
| `Hss`, `HssApplication`, `HssAnswers`, `HssResync` | the subscriber store, the Cx/Sh request machine, the shape of its answers (RFC 6733, section 6.2) and resynchronisation |
| `HssDocuments`, `HssContents`, `HssShAnswers`, `HssOutcomes`, `HssChallenges` | what those answers carry, read back from their octets: documents, vectors, codes, and the challenge a resynchronisation names |
| `Bencode`, `BencodeLaws`, `BencodeLimits` | the control codec of `media/rtp_module.py` |
| `Sdp`, `SdpLaws`, `SdpExamples` | its SDP parser and rewriter (RFC 8866, sections 5.7 and 5.14), and bodies that can arrive |
| `RelayModel`, `RelayLaws`, `RelayHistory`, `RelayReplies`, `RelayCommands`, `RelayBodies`, `RelayOversized`, `MediaRelay` | the relay as a state machine on values, its invariants over runs, its replies, and the objects that refine it |
| `BoundedRing`, `RingCache`, `RingRuns`, `WorkerRings` | the worker's bounded ring inside its flat string cache, over any number of independent rings |
| `Digest`, `DigestProof`, `DigestRuns`, `DigestCounts`, `DigestZeroCount` | digest credential checking and its replay state (RFC 7616) |
| `RateLimit`, `RateRules` | the token bucket of `dialplan.mko` |
| `Headers`, `HeaderLaws`, `HeaderMarks`, `HeaderBatch`, `HeaderSetValues`, `HeaderTexts` | the header rewriting scans of `headers.mko` |
| `B2bua`, `B2buaKeys`, `B2buaLaws`, `B2buaRuns`, `B2buaDialogs` | the leg table of `b2bua.mko` |
| `Events`, `EventLaws`, `EventRuns`, `EventContents` | the subscription ring of `event_package.mko` |

## How to read it

Each component has a specification on values and, where the source changes
things step by step, a class or a method with loops whose `ensures` equates its
effect with that specification. The laws are lemmas about the specification,
mostly over whole runs: a run is a list of events in any order, and the clock,
the random draws, the ports held by other programs, the longest datagram that can
be sent, the hash functions and the database rows are parameters of those events.

The worker's cache is a `map<string, string>`; `cmap_get`, `cmap_set`,
`cmap_del` and `cmap_incr` are the methods of `RingCache.CMap`. A socket is a
number that is never reused, and a relay state records the port each open socket
is bound to. A received stream is a list of deliveries of any sizes.

## Where the code does not do what its comments or callers expect

The model follows the code; these are lemmas, not remarks.

- A key that is deleted by other code and stored again is named by two ring
  slots, and the older slot takes it out early (`BoundedRing.ReinsertedKeyLeavesEarly`;
  `BoundedRing.SurvivesRunIff` says exactly when a live key outlives further
  insertions). A subscription that is dropped and renewed is lost this way to the
  16383 next ones (`EventRuns.ResubscriptionLostEarly`), and it can happen to a
  B2BUA session whose Call-ID and From tag are used again.
- A request whose nonce count evaluates to 0 is exempt from the counter check and
  resets the counter. The stored count falls if and only if such a request reaches
  it (`DigestCounts.CountFallsIff`), and a lower count that was refused is then
  accepted (`DigestZeroCount.ZeroThenLowerAccepted`).
- The request handler raises, and the connection ends without an answer, exactly
  for requests other than capabilities exchange whose Session-Id is longer than
  65519 octets, and for Sh profile updates of a stored identity on whose data the
  JSON decoder raises something the handler does not catch
  (`HssAnswers.EveryRequestAnswered`). Both can arrive: `HssAnswers.LongSessionRaises`,
  and `HssAnswers.DeepUpdateRaises` for JSON nested deeper than the decoder follows.
- The Sh document of a profile reads back as the profile if and only if no value
  holds a `<` (`HssDocuments.ShReadsBackIff`); two profiles can share a document
  (`HssDocuments.TagsInValueForge`).
- Parsing a rewritten SDP body yields the address written into it if and only if
  its first `c=` line is one the parser routes by (`SdpLaws.RewriteThenParse`); a
  body on hold at the session level is one that is accepted, rewritten and then
  unreadable (`SdpExamples.HeldBodyLost`).
- An added header lands as a line of its own if and only if the first text that
  reads as Content-Length, anywhere in the message, starts a header line or is
  absent (`HeaderMarks.AddLandsIff`). A header such as X-Content-Length is cut in
  two (`HeaderMarks.MarkInsideLineSplitsIt`).
- A batch drops a set whose value is blank and trims one that ends in a blank. It
  leaves the same header lines as a plain set if and only if the value is not empty
  and does not end in a blank, or is blank throughout and already the only header
  of that name as it stands (`HeaderSetValues.SetAgreesIff`). The lists of sets and
  adds are split at `|`, not at commas as the comment at headers.mko:110-113 says.
- A reply that is too large for a control packet is replaced by an error although
  the session it reports stays (`RelayReplies.OfferStaysWhateverReplied`,
  `RelayReplies.AnswerStaysWhateverReplied`); one that fits a control packet but no
  datagram is not sent at all (`RelayReplies.EveryPacketAnswered`). With a long
  media address an offer that itself fits a datagram meets either
  (`RelayOversized.OversizedOffer`, `RelayOversized.UnansweredOffer`).
- Past the largest CSeq number a request within a B2BUA dialog goes out under its
  own number (`B2buaRuns.DialogCseqStep`); a call that starts at the largest does
  this at once (`B2buaRuns.LargestCseqRepeats`).

## Model

| member | source | states |
|---|---|---|
| `Diameter.PrintAvpIsWire` | lab/ims_hss.py:88-101 | for an AVP whose vendor bit agrees with its vendor field, printing succeeds and gives header, vendor field, value and zero padding to a multiple of four; the vendor bit is set by the vendor field |
| `Diameter.ParseAvpAt` | lab/ims_hss.py:139-153 | one turn of the parsing loop at any offset reads exactly what the specification reads from the remaining octets, with the same errors |
| `Diameter.ParseAvpsLoop` | lab/ims_hss.py:135-154 | the offset loop over a body computes the recursive specification of the AVP list, error cases included |
| `Diameter.ParseOfWire` | lab/ims_hss.py:88-154 | an AVP followed by any octets parses to itself and stops at its own end |
| `Diameter.WireOfParse` | lab/ims_hss.py:135-154 | whatever the parser accepts is octet for octet the wire form of the AVP it returns, padding and lengths included |
| `Diameter.PrintThenParse` | lab/ims_hss.py:88-154 | parsing any concatenation of printed AVPs returns exactly those AVPs in order |
| `Diameter.ParseThenPrint` | lab/ims_hss.py:88-154 | any accepted octets whose AVPs lie in the printer's bounds are printed again octet for octet |
| `Diameter.WireAllOfParse` | lab/ims_hss.py:135-154 | every accepted body is the concatenation of its AVPs' wire forms and a multiple of four octets long, whether or not the printer could produce them |
| `Diameter.BuildThenParse` | lab/ims_hss.py:157-183 | a built message parses to its own header fields and its body's AVPs, or to its body's error, and is 20 octets longer than the body |
| `Diameter.ParseThenBuild` | lab/ims_hss.py:157-183 | every accepted message is what its own parts build, and its length is a multiple of four (RFC 6733 section 3) |
| `WireLayouts.AvpLayout` | lab/ims_hss.py:88-101 | in a printed AVP code, flags, length, vendor, value and zero padding stand at their octets, most significant first (RFC 6733 section 4.1) |
| `WireLayouts.MessageLayout` | lab/ims_hss.py:157-171 | in a built message version, length, flags, command, application and the two identifiers stand at their octets, before the body (RFC 6733 section 3) |
| `Framing.ChunkedSocket.Recv` | lab/ims_hss.py:210-217 | a receive takes a prefix of the undelivered octets, at most the limit, and none only when the peer has closed |
| `Framing.ReadExact` | lab/ims_hss.py:210-217 | the read loop returns exactly the next octets and leaves the rest, or fails after taking everything when too few ever come |
| `Framing.FrameRead` | lab/ims_hss.py:202-208 | reading a message depends on the octets alone, not on how they were delivered, and takes none past the message |
| `Framing.ReadAllFrames` | lab/ims_hss.py:695-726 | the connection loop returns the frames of the stream, one after the other |
| `Framing.BuiltIsWellFramed` | lab/ims_hss.py:171-208 | every message the builder makes is one the framing reads whole |
| `Framing.FramesOfMessages` | lab/ims_hss.py:202-217 | any list of well-formed messages on a stream is read back as exactly those messages, in order, whatever follows them |
| `Hss.HssStore.Provision` | lab/ims_hss.py:297-322 | a request that fails a check on identities, server, secret, profile or flag, or that finds the store full, changes nothing; otherwise an existing pair of identities is replaced in place, a new one is appended, and the subscriber is then found |
| `Hss.IdentityField` | lab/ims_hss.py:232-243 | a field is accepted if and only if it is text of printable ASCII within its limit and without bar, quote or backslash |
| `Hss.Checked` | lab/ims_hss.py:297-316 | whatever passes the checks is a valid subscriber with a sip: or sips: identity |
| `HssShAnswers.CheckedIff` | lab/ims_hss.py:245-316 | a request to store a subscriber passes if and only if identities, server, secret, profile and flag keep to their limits, each spelled out; the subscriber stored is the one given |
| `HssShAnswers.ProfileIff` | lab/ims_hss.py:245-276 | a profile is valid if and only if it has at most eight identities and four criteria, each a different sip: or sips: text of up to 2048 printable characters, under keys of their own |
| `Hss.HssStore.Lookup` | lab/ims_hss.py:324-331 | the first subscriber with the public identity and, if given, the private identity |
| `Hss.HssStore.SetEnabled` | lab/ims_hss.py:364-371 | only the flag of the first match changes |
| `Hss.HssStore.Remove` | lab/ims_hss.py:356-362 | exactly the first match goes and the order of the others stays |
| `HssApplication.Application.IssueVectors` | lab/ims_hss.py:494-513 | the loop prints one vector per draw in order and remembers the first draw's RAND for this identity only |
| `HssApplication.Application.ReadAuthItem` | lab/ims_hss.py:459-481 | the nested scan finds the scheme and the resynchronisation fields as the last matching AVPs give them |
| `HssApplication.Application.HandleMarRequest` | lab/ims_hss.py:515-540 | the authentication request changes the remembered RANDs and answers as the specification says, for vectors, resynchronisation and each refusal |
| `HssApplication.Application.HandleShRequest` | lab/ims_hss.py:592-639 | profile reads, updates and subscriptions change the store and the subscription table as the specification says; an error of the JSON decoder that is not caught escapes |
| `HssApplication.Application.HandleCxRequest` | lab/ims_hss.py:641-677 | the Cx commands answer by subscriber, server name and command as the specification says |
| `HssApplication.Application.HandleRequest` | lab/ims_hss.py:641-677 | one received message changes the application's state and is answered exactly as the specification says |
| `HssAnswers.AnswerParses` | lab/ims_hss.py:429-437 | an answer built from printable AVPs parses back to the request's command, application and identifiers with the R bit clear and to those AVPs |
| `HssAnswers.AnswerWithShape` | lab/ims_hss.py:416-437 | an answer by result code parses, mirrors the request, carries that code and is padded to four, unless the echoed Session-Id is too long to print |
| `HssAnswers.EveryRequestAnswered` | lab/ims_hss.py:592-677 | input that does not parse gets no answer; every other request gets one parseable answer of the same exchange with the R bit clear and length a multiple of four, except exactly those with a Session-Id over 65519 octets and the profile updates of a stored identity on which the JSON decoder raises an error the handler does not catch (RFC 6733 section 6.2); a valid store stays valid |
| `HssAnswers.LongSessionRaises` | lab/ims_hss.py:429-437 | every Session-Id over 65519 octets that still fits a message makes one that is received whole and on which the handler raises |
| `HssAnswers.DeepUpdateRaises` | lab/ims_hss.py:605-620 | a profile update of any stored identity carrying a JSON object nested deeper than the decoder follows is received whole, and the handler raises and changes nothing |
| `HssAnswers.CxSuccessIff` | lab/ims_hss.py:641-677 | an answered Cx request reports success if and only if its subscriber is stored and enabled, the named server matches or is absent where that is checked, and an authentication request names a usable RAND |
| `HssContents.CxAllowedIff` | lab/ims_hss.py:641-677 | the success condition written out: the first stored subscriber with the identities is enabled and serves the named server, and the command is of the interface or an authentication request that is allowed |
| `HssContents.MarAllowedIff` | lab/ims_hss.py:515-540 | an authentication request is allowed if and only if its last scheme is Digest-AKAv1-MD5 and it has no AUTS, or one of 8 to 32 octets with the remembered RAND of its identity |
| `HssContents.CxAnswers` | lab/ims_hss.py:641-677 | an answered Cx request reports 2001 if and only if it is allowed; the answer then names the stored server, and on a registration carries the document of that subscriber |
| `HssOutcomes.CxRefusals` | lab/ims_hss.py:641-677 | a refused Cx request is answered with 5001 when subscriber, server or RAND do not match and with 3001 when command or authentication item are not of the interface; nothing changes |
| `HssContents.VectorsOnWire` | lab/ims_hss.py:494-540 | the parsed answer to an allowed authentication request has as many vectors as asked for, each with its number, the scheme, the stored secret and the RAND followed by the AUTN of its own draw; the RAND remembered is the start of the first challenge sent |
| `HssContents.CommonRead` | lab/ims_hss.py:416-437 | every answer by code echoes the session, names the origin and no kept state, and on Cx vendor and application |
| `HssDocuments.CxShows` | lab/ims_hss.py:384-397 | read by its tags, the Cx document shows the subscriber's identity twice and its associated ones, and its filter criteria, in order, when no value holds a tag |
| `HssDocuments.ShReadsBackIff` | lab/ims_hss.py:548-560 | read by its tags, the Sh document of a profile gives the profile back if and only if no value holds a "<" |
| `HssDocuments.TagsInValueForge` | lab/ims_hss.py:548-560 | a value that holds the tags between two items gives the document of the profile with the two |
| `HssShAnswers.ShReads` | lab/ims_hss.py:592-602 | a profile read of a stored identity answers with the document of its stored profile; an unknown identity is answered with 5001; nothing changes |
| `HssShAnswers.ShUpdates` | lab/ims_hss.py:605-621 | an update replaces exactly the lists it names in the profile of exactly its subscriber; data that is missing, too long or no valid profile is answered with 3001 without effect |
| `HssShAnswers.ShSubscribes` | lab/ims_hss.py:623-634 | a subscription adds the named indication to those of its identity and reference and changes nothing else |
| `HssOutcomes.CapabilitiesSent` | lab/ims_hss.py:439-450 | the capabilities answer, parsed, names origin, product, vendor and both applications (RFC 6733 section 5.3.2) |
| `HssOutcomes.OtherRequests` | lab/ims_hss.py:650-660 | the watchdog is answered with 2001; answers, other applications and unknown Sh commands with 3001; nothing changes |
| `HssResync.ReplayIsLatest` | lab/ims_hss.py:494-513 | the map of remembered RANDs holds, per identity, the first RAND of the latest batch issued to it and nothing else |
| `HssResync.StepRand` | lab/ims_hss.py:494-540 | one request remembers exactly the RAND it issues, for exactly one identity; no other request changes any |
| `HssResync.RunIsReplay` | lab/ims_hss.py:494-540 | after any sequential run the map equals the replay of the batches issued so far |
| `HssResync.ResyncNamesLatest` | lab/ims_hss.py:515-540 | a resynchronisation succeeds only if its RAND is the first RAND of the latest batch issued to the same private identity |
| `HssResync.OneResyncPerRand` | lab/ims_hss.py:515-540 | with distinct draws, no two resynchronisations of a run name the same RAND |
| `HssChallenges.ResyncNamesSent` | lab/ims_hss.py:494-540 | over any sequential run a resynchronisation that succeeds names the first 16 octets of the challenge in the latest answer with vectors to its identity, if that answer could be sent |
| `HssChallenges.ResyncOfSentAllowed` | lab/ims_hss.py:494-540 | and naming what the latest answer carried suffices: such a resynchronisation is allowed |
| `Bencode.BDecode` | media/rtp_module.py:67-128 | the cursor-driven decoder computes the recursive specification, limits and errors included |
| `Bencode.BDecodeList` | media/rtp_module.py:80-91 | the list loop appends elements up to the limit as the specification does |
| `Bencode.BDecodeDict` | media/rtp_module.py:92-112 | the dictionary loop refuses repeated or non-string keys and stops as the specification does |
| `BencodeLaws.DecodeInOrder` | media/rtp_module.py:67-128 | decoding where a value was written returns it and the position of its end, for every nesting within the limits |
| `BencodeLaws.DecodeOfEncode` | media/rtp_module.py:39-128 | decoding the encoding of any value within the limits, followed by any octets, returns an equal value and stops exactly at the end of the encoding |
| `BencodeLaws.ControlRoundTrip` | media/rtp_module.py:60-137 | a control message that fits is read back as an equal dictionary |
| `BencodeLaws.EqualSameEncoding` | media/rtp_module.py:48-56 | equal values have the same encoding, whatever order their dictionaries were filled in |
| `BencodeLaws.SortIncreasing` | media/rtp_module.py:48-56 | dictionary keys come out in strictly increasing octet order |
| `WireLayouts.BencodeLayout` | media/rtp_module.py:39-56 | each kind of value by its octets: i digits e, length and colon, l and d to e |
| `BencodeLimits.AcceptedMessageWithin` | media/rtp_module.py:67-137 | whatever control message is accepted keeps within the limits on depth, lists, entries and numbers, and names no key twice |
| `BencodeLimits.TrailingRefused` | media/rtp_module.py:130-137 | a message followed by any octets is refused |
| `BencodeLimits.CutShortRefused` | media/rtp_module.py:67-137 | an accepted message cut short anywhere is refused |
| `Sdp.ParseSdpLoop` | media/rtp_module.py:182-215 | the line loop accepts, refuses and returns as the specification does |
| `SdpLaws.ScanAccepts` | media/rtp_module.py:189-215 | the scan accepts bodies with at most one routable connection line and one usable audio line, and finds them |
| `SdpLaws.ScanFinds` | media/rtp_module.py:189-215 | it accepts nothing else |
| `RelayBodies.BodyAcceptedIff` | media/rtp_module.py:182-215 | a body is accepted if and only if it is of 1 to 65535 characters without NUL, starts with the version line, and has one routable connection line and one audio line with four words and a port; it is read as exactly that endpoint |
| `RelayBodies.AnnouncesOne` | media/rtp_module.py:182-215 | a body announces one endpoint at most |
| `RelayBodies.AudioPortIff` | media/rtp_module.py:200-211 | an audio line is usable if and only if it has four words and the second is a number from 1 to 65535 |
| `SdpLaws.JoinOfSplitLines` | media/rtp_module.py:182-239 | splitting a body at CRLF and joining it again changes nothing |
| `SdpLaws.RewriteEffect` | media/rtp_module.py:218-239 | a rewrite replaces exactly the first IN connection line and the port of the first audio line; every other line stays |
| `SdpLaws.RewriteExact` | media/rtp_module.py:218-239 | the replaced connection line names the address under its family, and the words of the replaced audio line are the old ones with the port in second place |
| `SdpLaws.RewriteOverrides` | media/rtp_module.py:218-239 | a second rewrite of any accepted body fully overrides the first |
| `SdpLaws.RewriteThenParse` | media/rtp_module.py:182-239 | for an accepted body whose rewritten form fits, parsing it again yields exactly the written address and port if and only if the first IN connection line is the one that routed |
| `SdpExamples.HeldBodyLost` | media/rtp_module.py:182-239 | a body with an unspecified address in its first connection line and a routable one in its second is accepted, is rewritten, and can then not be read |
| `RelayModel.FirstFree` | media/rtp_module.py:303-314 | the lowest port of the range that is neither bound here nor held elsewhere, or none when all are |
| `RelayLaws.PrepareLegEffect` | media/rtp_module.py:342-350 | preparing a leg opens exactly one fresh socket on a fresh port of the range, or on any error, the machine giving no socket included, leaves every socket as it was |
| `RelayLaws.DeleteKeepsInv` | media/rtp_module.py:325-331 | deleting a call closes its sockets and keeps all others accounted for |
| `RelayLaws.OfferKeepsInv` | media/rtp_module.py:336-351 | an offer keeps sockets, ports, sessions and limits consistent on every path |
| `RelayLaws.AnswerKeepsInv` | media/rtp_module.py:353-369 | so does an answer, refused or not |
| `RelayLaws.NextKeepsInv` | media/rtp_module.py:303-491 | so does every control datagram, media packet, expiry tick and shutdown |
| `RelayLaws.PortsConserved` | media/rtp_module.py:303-435 | in every reachable state the open sockets are exactly the legs of live sessions, on distinct ports of the range, sessions stay within the limit, and ports in use are sessions plus answered sessions |
| `RelayLaws.ShutdownClosesAll` | media/rtp_module.py:479-491 | after closing, no session and no media socket is left |
| `RelayHistory.RunIsLater` | media/rtp_module.py:303-435 | over any stretch of any run a surviving socket keeps its call, side, port, announced address and, once set, its observed source |
| `RelayHistory.LatchedForGood` | media/rtp_module.py:393-399 | a leg's observed source is written once and never changes while its socket is open |
| `RelayHistory.AnsweredOnce` | media/rtp_module.py:353-356 | while a call lives its answer leg never changes and every further answer is refused without effect |
| `RelayHistory.MediaIsolation` | media/rtp_module.py:393-429 | a packet is forwarded if and only if it is version 2, comes from an accepted source and the call has both legs; it leaves once, from the peer leg of the same call, to that leg's latched source or else its announced address; no other call changes |
| `RelayBodies.LegOpened` | media/rtp_module.py:336-369 | in every reachable state each leg was opened by an offer or answer for its call and side, whose body announces the leg's address |
| `RelayBodies.ForwardedWhereAnnounced` | media/rtp_module.py:336-416 | over any run, a packet forwarded to a leg not yet heard from goes to the address on the only routable connection line and the port on the only audio line of the body of the offer or answer that opened that leg |
| `RelayCommands.MediaUse` | media/rtp_module.py:393-416 | a packet of 12 to 8192 octets, version 2 and accepted source latches its source and sets the time of use, and nothing else of the call changes; any other changes nothing |
| `RelayCommands.TickExact` | media/rtp_module.py:431-435 | a tick keeps a call if and only if it was used less than the timeout ago, and closes exactly the sockets of the others |
| `RelayHistory.NoLegNoMedia` | media/rtp_module.py:418-429 | a packet on a socket that is no leg changes nothing and goes nowhere |
| `RelayReplies.EveryPayloadAnswered` | media/rtp_module.py:371-391 | every control payload, well formed or not, gets a reply that decodes to a dictionary whose result is ok or error |
| `RelayReplies.EveryPacketAnswered` | media/rtp_module.py:459-477 | a datagram on the control socket has its command's effect if and only if its source is allowed and it holds a cookie of 1 to 64 octets and a command, and changes nothing otherwise; one decodable reply goes back under the same cookie if and only if it fits a datagram |
| `RelayReplies.SdpReplySent` | media/rtp_module.py:60-65 | an accepted body is returned whole when the reply fits, and otherwise an error is sent in its place |
| `RelayCommands.OfferRead` | media/rtp_module.py:371-391 | a dictionary holding the fields of an offer, in any order and with any others, is read as that offer, however its command is cased |
| `RelayCommands.AnswerRead` | media/rtp_module.py:371-391 | an answer likewise |
| `RelayCommands.DeleteRead` | media/rtp_module.py:371-391 | a delete likewise |
| `RelayCommands.PingRead` | media/rtp_module.py:371-391 | a ping likewise |
| `RelayCommands.OfferOpensIff` | media/rtp_module.py:336-351 | an offer ends any call of its name and opens one if and only if there is room, its body can be read and a socket and a port are to be had; other calls stay |
| `RelayCommands.OfferExact` | media/rtp_module.py:336-351 | the call opened has the offer's tag, no answer, the time of the offer, and a fresh socket on the lowest free port, for which the body is rewritten; otherwise an error is replied and no socket is left |
| `RelayCommands.AnswerExact` | media/rtp_module.py:353-369 | an answer is taken if and only if its call is there with its tag, not yet answered, its body can be read and a socket and a port are to be had; it changes the second leg, its tag and the time of use, or nothing |
| `RelayCommands.OfferReason` | media/rtp_module.py:333-351 | an offer that opens no call is told that there is no room, or why it got no leg |
| `RelayCommands.AnswerReason` | media/rtp_module.py:353-365 | an answer that is not taken is told that its dialog is unknown or answered, or why it got no leg |
| `RelayCommands.ReasonRead` | media/rtp_module.py:333-334 | the peer reads the reason, up to 128 characters of it |
| `RelayCommands.DeleteExact` | media/rtp_module.py:379-381 | a delete removes exactly its call and closes exactly its sockets |
| `RelayCommands.PingExact` | media/rtp_module.py:376-377 | a ping is answered and changes nothing |
| `RelayReplies.OfferStaysWhateverReplied` | media/rtp_module.py:336-391 | an offer whose leg is prepared leaves its session in the table, and the reply says error if and only if the full reply exceeds 65535 octets |
| `RelayReplies.AnswerStaysWhateverReplied` | media/rtp_module.py:353-391 | an answer likewise: the call counts as answered whatever is replied |
| `RelayOversized.OversizedOffer` | media/rtp_module.py:336-391 | with a media address of 38 characters or more and ports of five digits, an offer in a datagram of 65527 octets opens its session and is answered with an error |
| `RelayOversized.UnansweredOffer` | media/rtp_module.py:459-477 | with a media address of 28 to 57 characters, an offer in a datagram of 65507 octets opens its session and, where no longer datagram can be sent, gets no reply |
| `RelayReplies.AcceptedBodyAdvertisesLeg` | media/rtp_module.py:336-369 | when the replaced connection line is the routing one, the returned body reads as the relay's address and exactly the port bound for the new leg |
| `MediaRelay.MediaRelay.constructor` | media/rtp_module.py:269-301 | a valid configuration starts with no session and no open socket |
| `MediaRelay.MediaRelay.AllocateSocket` | media/rtp_module.py:303-314 | when no socket can be made nothing changes; otherwise the port loop binds the lowest free port, or closes the socket when none is free |
| `MediaRelay.MediaRelay.CloseLeg` | media/rtp_module.py:316-323 | closing a leg closes its socket and no other; closing none does nothing |
| `MediaRelay.MediaRelay.DeleteSession` | media/rtp_module.py:325-331 | the session leaves the table and both its sockets close |
| `MediaRelay.MediaRelay.Offer` | media/rtp_module.py:336-351 | the table, sockets and reply after an offer are those of the model, on every error path |
| `MediaRelay.MediaRelay.Answer` | media/rtp_module.py:353-369 | the session object gains its tag, leg and time, or nothing changes, as in the model |
| `MediaRelay.MediaRelay.HandlePayload` | media/rtp_module.py:371-391 | one control payload has the model's effect and reply |
| `MediaRelay.MediaRelay.HandleControlSocket` | media/rtp_module.py:459-477 | one datagram on the control socket is cut, checked, split at its first blank, handled and answered as in the model |
| `MediaRelay.MediaRelay.FindPeer` | media/rtp_module.py:401-408 | searching the table for a leg object finds the other leg of the same session |
| `MediaRelay.MediaRelay.RelayPacket` | media/rtp_module.py:393-416 | latching, activity time and forwarding are those of the model |
| `MediaRelay.MediaRelay.HandleMediaSocket` | media/rtp_module.py:418-429 | the search by socket handles the packet for the one leg that owns it |
| `MediaRelay.MediaRelay.ExpireSessions` | media/rtp_module.py:431-435 | the loop deletes exactly the sessions idle past the timeout |
| `MediaRelay.MediaRelay.Close` | media/rtp_module.py:479-482 | the loop deletes every session |
| `BoundedRing.LocatedInsert` | auth.mko:35-50 | inserting keeps every live key named by some slot |
| `BoundedRing.LiveKeysBounded` | auth.mko:31-50 | when every live key is named by some slot, at most capacity keys are live |
| `BoundedRing.RunBounded` | auth.mko:31-50 | from the empty ring, over any interleaving of insertions and outside deletes of any keys, every live key is named by a slot and at most capacity keys are live |
| `BoundedRing.SurvivesRunIff` | auth.mko:35-50 | a live key outlives a run of new keys if and only if none of the slots they take names it |
| `BoundedRing.ReinsertedKeyLeavesEarly` | auth.mko:35-50 | for every capacity of at least two, a key stored, deleted outside and stored again is dropped by as few as capacity-1 newer keys, and by no fewer |
| `BoundedRing.FifoStep` | auth.mko:35-50 | without outside deletes one insertion is one step of a first-in-first-out queue of distinct keys; a live key stays where it is |
| `BoundedRing.FifoRun` | auth.mko:35-50 | so is any run of insertions |
| `BoundedRing.NewestSurvivesExactly` | auth.mko:35-50 | the newest key survives the next capacity-1 new keys and is dropped by the one after |
| `RingCache.BoundedStateSetInPlace` | auth.mko:35-50 | the cache operation computes the specification, for one shared map or two |
| `RingCache.BoundedPairSetInPlace` | auth.mko:57-77 | so does the variant that keeps a time stamp beside each key |
| `RingCache.SetRefinesInsert` | auth.mko:35-50 | on the string-keyed map the operation is exactly one ring insertion of the domain's live keys |
| `RingCache.SetFrame` | auth.mko:31-34 | it leaves every key of a domain with incomparable prefixes untouched |
| `RingCache.DomainsIndependent` | auth.mko:31-34 | over any interleaving of writes, each domain evolves by its own writes alone |
| `RingCache.RunIsQueue` | auth.mko:31-50 | the live keys of each domain are exactly the queue of its own writes |
| `RingCache.WrittenKeySurvives` | auth.mko:31-50 | a written key survives fewer than capacity new keys of its own domain and is dropped by the capacity-th, whatever other domains write |
| `RingCache.DeleteIsOutsideDelete` | auth.mko:31-50 | other code that deletes any live keys of a ring from the cache leaves its slots and counter alone |
| `RingRuns.LiveKeysBounded` | auth.mko:31-50 | on the string-keyed cache, over any interleaving of ring writes, deletes of the ring's keys by other code and changes elsewhere, at most capacity keys of the ring are live |
| `RingRuns.CacheRunIsRun` | auth.mko:31-50 | over any such interleaving the ring in the cache runs as the abstract ring runs over some list of insertions and outside deletes |
| `RingRuns.BoundedFromEmpty` | auth.mko:31-50 | in particular from an empty cache |
| `RingCache.PairSetIsSetPlusStamps` | auth.mko:57-77 | the stamped insertion is the plain one plus its two stamp updates |
| `RingCache.PairSetRefinesInsert` | auth.mko:57-77 | a key and its stamp are always both present or both absent, and the keys form the same ring |
| `WorkerRings.WorkerRingsApart` | auth.mko:79-85 | the nonce, nonce-count, used-credential, rate, subscription and pending-mark rings, with the worker's own names and sizes, never evict each other's keys; each holds the queue of its own writes |
| `Digest.SameDigest` | auth.mko:236-247 | the accumulating comparison accepts if and only if the two digests are equal up to case and not empty |
| `Digest.HexCount` | auth.mko:201-210 | the nonce-count loop computes the base-16 value of the digits |
| `Digest.AllHex` | auth.mko:177-182 | the scan accepts exactly strings of hexadecimal digits |
| `Digest.HeaderOk` | auth.mko:164-184 | the credential parameters are accepted exactly under the source's rules |
| `Digest.DbDigestValid` | auth.mko:155-271 | the whole check changes the cache and decides as the specification says |
| `DigestRuns.WorkerRingsOk` | auth.mko:83-85 | the worker's own used-credential and nonce-count rings, 65536 entries each, are disjoint and meet what the run laws ask of them |
| `DigestRuns.CheckEffect` | auth.mko:155-271 | with the database up, acceptance needs an unused tuple and inserts it as the newest; no other outcome touches the used ring |
| `DigestRuns.UsedIsQueue` | auth.mko:79-85 | over any run, AKA keys in the same ring included, the used ring is the queue of the keys put into it |
| `DigestRuns.ReplayRejected` | auth.mko:155-271 | a credential tuple accepted once is never accepted again while fewer keys than the ring holds have entered it since |
| `DigestRuns.ReplayedTupleRejected` | auth.mko:155-271 | from an empty cache, a later request with the nonce, user, method, URI, count and client nonce of an accepted one is refused while fewer keys than the ring holds have entered it since |
| `DigestRuns.AcceptedIff` | auth.mko:155-271 | with the database up acceptance is the five tests of the check in turn |
| `DigestProof.AdmittedIff` | auth.mko:155-271 | with the database up a request is accepted if and only if its header is complete, its nonce lives, its count is fresh, its response is the one of RFC 7616 for the stored secret, its URI fits and its tuple is unused, each written out |
| `DigestProof.AdmittedResponse` | auth.mko:127-247 | the response of an accepted request equals, letter case apart, KD(H(A1), nonce data H(A2)) of RFC 7616 section 3.4.1 for the stored secret |
| `DigestProof.ResponseFixesRequest` | auth.mko:127-247 | with collision-free hashes, two requests accepted with one response under one algorithm have the same stored secret, nonce, method and URI; with qop the same count, client nonce and qop, and with auth-int the same body |
| `DigestProof.AdmittedGoesThere` | auth.mko:248-263 | an accepted request names no URI, the URI of its credential, or one with the same user and, letter case apart, host |
| `DigestProof.StaleIff` | auth.mko:185-193 | the nonce is reported stale if and only if the header is complete, the nonce is known and its time, between 30 seconds and ten minutes, has passed |
| `DigestProof.KeyFixesTuple` | auth.mko:264-266 | the replay key holds the whole tuple, so no other request is taken for its replay when no part holds a bar |
| `DigestRuns.ReplayForgotten` | auth.mko:83-271 | the bound is exact: after as many acceptances as the ring has slots the tuple is forgotten, and its replay is accepted if and only if it passes the tests a first request must pass |
| `DigestCounts.HexValueIsPlaceValue` | auth.mko:201-210 | the loop's value is the positional base-16 value |
| `DigestCounts.HexValueInjective` | auth.mko:201-210 | counts of one length are equal only when written the same |
| `DigestCounts.CountNeverFalls` | auth.mko:195-213 | while the entry stays cached and no count of 0 is presented, the stored count never falls, failed attempts included |
| `DigestCounts.AcceptedCountsIncrease` | auth.mko:195-213 | under the same conditions accepted counts on one nonce strictly increase (RFC 7616 section 3.4) |
| `DigestCounts.ZeroCountReopens` | auth.mko:211-212 | in the counter, a count of 0 passes and lets a count through that was refused before |
| `DigestCounts.CountFallsIff` | auth.mko:195-213 | while its entry is kept, one step lowers the stored count if and only if a request with count 0 on that nonce reaches the counter and the stored count is positive |
| `DigestZeroCount.ZeroCountAccepted` | auth.mko:155-271 | a proved and unused request with count 0 is accepted by the whole check and sets the counter to 0 |
| `DigestZeroCount.ZeroThenLowerAccepted` | auth.mko:155-271 | a proved request whose count is refused now is accepted by the whole check after one with count 0 |
| `RateLimit.CurrentLimit` | dialplan.mko:159-167 | the limit is read from the cache or the environment and cached as the source does |
| `RateLimit.DbRateOk` | dialplan.mko:158-188 | one call refills, takes and writes back as the specification says |
| `RateLimit.RateStepIsTake` | dialplan.mko:169-187 | on a cached bucket a call is one step of a token bucket on numbers |
| `RateRules.RateExact` | dialplan.mko:169-187 | a call passes if and only if its bucket, refilled by one each ten milliseconds up to the limit, holds a token; it takes one and notes the time, a refusal changes nothing, and a new user starts one short of full |
| `RateRules.LimitIs` | dialplan.mko:159-167 | the limit is the cached number, or on first use the environment's, a hundred by default and a million at most |
| `RateRules.FirstUseFixesLimit` | dialplan.mko:159-167 | the first use fixes the limit for as long as it stays cached |
| `RateRules.Unlimited` | dialplan.mko:168-168 | with no positive limit everyone passes and no bucket is kept |
| `RateRules.UnreadableBucket` | dialplan.mko:175-181 | a bucket that cannot be read limits nobody and stays as it is |
| `RateLimit.BurstIsExactlyLimit` | dialplan.mko:169-187 | at one instant exactly the limit many calls of a fresh bucket are admitted |
| `RateLimit.RunIsBucket` | dialplan.mko:169-187 | over any run with the bucket cached, the admissions are those of the bucket |
| `RateLimit.AdmissionsBounded` | dialplan.mko:169-187 | any k consecutive admissions of one user spanning T milliseconds satisfy k <= limit + T/10 |
| `RateLimit.WindowStart` | dialplan.mko:169-187 | the bound applies to a window starting anywhere in a run |
| `RateLimit.PacedNeverRefused` | dialplan.mko:169-187 | a user whose requests are at least 10 ms apart is never refused |
| `Headers.HdrTextSafe` | headers.mko:6-14 | accepts exactly values without NUL, CR and LF |
| `Headers.HdrNameSafe` | headers.mko:16-26 | accepts exactly non-empty tokens |
| `HeaderTexts.SafeValueIff` | headers.mko:6-14 | which values are safe, written out |
| `HeaderTexts.SafeNameIff` | headers.mko:16-26 | which names are safe, written out |
| `Headers.HdrAdd` | headers.mko:29-51 | the scan inserts before the first text reading as Content-Length, or else before the first blank line |
| `Headers.HdrRemove` | headers.mko:54-102 | the single pass keeps exactly what the line-by-line specification keeps |
| `Headers.HdrSet` | headers.mko:105-108 | removing and adding composed, or the message unchanged when name or value is unsafe |
| `Headers.HdrBatchRewrite` | headers.mko:114-195 | the whole batch scan computes the specification: parsed lists, kept lines, sets, adds and the rest of the message |
| `Headers.FindColon` | headers.mko:156-161 | the scan of a line finds the first colon before its end |
| `HeaderLaws.WireInjective` | headers.mko:54-78 | a well-formed message is determined by its text, so equal text means equal start line, header lines and body |
| `HeaderLaws.RemoveEffect` | headers.mko:54-102 | on a well-formed message removal drops exactly the lines of that name, in any case of letters; start line, other lines and body stay |
| `HeaderLaws.BatchEffect` | headers.mko:114-195 | a batch keeps the start line and body, then the lines not dropped in order, then the sets, then the adds |
| `HeaderLaws.AddEffect` | headers.mko:29-51 | when the mark is in order, a safe header becomes one new header line |
| `HeaderLaws.SetEffect` | headers.mko:105-108 | a set leaves exactly one header of that name, holding the value, every other line in order and the start line and body identical |
| `HeaderLaws.SetOverrides` | headers.mko:105-108 | a later set of the same name, in any case of letters, overrides an earlier one, and setting twice is setting once |
| `HeaderMarks.SteadyLands` | headers.mko:29-36 | a condition on the text of the message, kept by removals and insertions, makes every addition land well |
| `HeaderMarks.AddLandsIff` | headers.mko:29-51 | a safe header other than Content-Length becomes one more header line if and only if the first text reading as Content-Length starts a header line or is absent |
| `HeaderTexts.AddedBeforeLength` | headers.mko:29-36 | an added header stands, as name, colon, blank and value, just before the Content-Length line when nothing mentions it earlier |
| `HeaderTexts.AddedLast` | headers.mko:37-51 | and after all other lines when nothing mentions it |
| `HeaderMarks.MarkInsideLineSplitsIt` | headers.mko:32-36 | when that text stands inside a header line, the addition cuts the line in two there |
| `HeaderBatch.ListsReadBack` | headers.mko:115-141 | the comma and bar lists a caller builds from safe names and trimmed values are read back as exactly those names and lines |
| `HeaderBatch.DroppedIff` | headers.mko:54-78 | on a line without blanks around its name the batch and the single removal match the same names |
| `HeaderBatch.BatchLines` | headers.mko:114-195 | on any message whose lines and lists are tidy the batch writes the lines named by no removed or set name in order, then the sets, then the adds |
| `HeaderBatch.BatchIsOneByOne` | headers.mko:109-113 | if every addition on the way lands as a line, the single scan gives the same start line and body, and the same multiset of header lines, as removing, setting and adding one by one |
| `HeaderBatch.SteadyStepsLand` | headers.mko:29-51 | a condition on the text alone, which leaves free what follows a Content-Length header that stays, makes every addition on the way land |
| `HeaderSetValues.BlankSetsNothing` | headers.mko:126-138 | a batch set with a blank value changes nothing |
| `HeaderSetValues.TrimmedIsSet` | headers.mko:126-138 | any other batch set writes the value without its trailing blanks |
| `HeaderSetValues.SetAgreesIff` | headers.mko:105-138 | on any tidy message where the added line lands as one, one batch set leaves the same multiset of header lines as a plain set if and only if its value is not empty and does not end in a blank, or is blank and the line it would write is already the only one of that name |
| `B2bua.LegTable.Cleanup` | b2bua.mko:87-114 | removes the index entry of the stored Call-ID and all twenty-two fields, and nothing else |
| `B2bua.LegTable.Active` | b2bua.mko:116-126 | an idle or unstamped session is cleaned up by the first reading of the clock, a live one is stamped with the second |
| `B2bua.LegTable.Store` | b2bua.mko:128-164 | counts up, cleans up the session its slot still names, and writes the slot, the index and all fields; refuses unusable input untouched |
| `B2bua.LegTable.LookupIn` | b2bua.mko:166-170 | finds by the caller side, with the effect of a use |
| `B2bua.LegTable.LookupOut` | b2bua.mko:172-178 | finds by the downstream Call-ID, with the effect of a use |
| `B2bua.LegTable.PrepareInvite` | b2bua.mko:209-233 | refuses, or stores a new session, in the source's order of checks |
| `B2bua.LegTable.PrepareInDialog` | b2bua.mko:235-258 | numbers a BYE or INVITE, reuses the INVITE's number for an ACK, and records what is pending |
| `B2bua.LegTable.TranslateResponse` | b2bua.mko:275-300 | remembers the remote tag and confirms on success |
| `B2bua.LegTable.NextPeerCseq` | b2bua.mko:302-309 | returns the next number toward the caller and advances it up to the largest |
| `B2bua.LegTable.RequestToPeer` | b2bua.mko:311-317 | numbers a BYE toward the caller, for a live session only |
| `B2buaKeys.RenderInjective` | b2bua.mko:87-164 | no two entries of the table share a name in the flat cache |
| `B2buaLaws.CleanupEffect` | b2bua.mko:87-114 | cleanup keeps the table coherent, leaves no field and no index entry of the session, and changes no other session |
| `B2buaLaws.StoredEffect` | b2bua.mko:128-164 | storing under a fresh downstream Call-ID keeps the table coherent, makes the session complete and indexed, removes at most the session its slot named and touches no other |
| `B2buaRuns.TouchEffect` | b2bua.mko:116-126 | a use keeps coherence and changes only the time stamp; an idle session is gone without trace |
| `B2buaRuns.StepAllowed` | b2bua.mko:87-317 | one event keeps coherence, changes other sessions in no way but by removing them, and its own only in the fields that event may change |
| `B2buaRuns.RunCoherent` | b2bua.mko:87-317 | over any run with fresh downstream Call-IDs a session's fields are all present or all absent, the two indexes are inverse, and every live session sits in a ring slot |
| `B2buaRuns.LiveSessionsBounded` | b2bua.mko:15-17 | at most 4096 sessions are ever live |
| `B2buaRuns.StoreIsInsert` | b2bua.mko:128-139 | a store is exactly one insertion into the bounded ring |
| `B2buaRuns.IdentityFixed` | b2bua.mko:128-164 | without a new INVITE for it, a session's Call-IDs, addresses, tags, targets and original INVITE never change, and a session that is gone does not come back |
| `B2buaRuns.DialogCseqStep` | b2bua.mko:244-253 | an in-dialog request goes out one above the last number, up to the largest; past it, under its own |
| `B2buaRuns.LargestCseqRepeats` | b2bua.mko:209-253 | a first call invited at CSeq 2147483647 is stored, and its next BYE or INVITE goes out under the number it came with |
| `B2buaRuns.CseqCountsUp` | b2bua.mko:244-253 | over any run the n-th BYE or INVITE within a dialog goes out n above the starting number, up to the largest |
| `B2buaRuns.PeerCseqStep` | b2bua.mko:302-309 | requests toward the caller are numbered one after the other and stay at the largest |
| `B2buaRuns.FoundIffRecent` | b2bua.mko:116-178 | a live session is found, equally from both sides, if and only if it was used within the idle time |
| `B2buaRuns.UseRefreshes` | b2bua.mko:116-126 | a successful use restarts the idle time; a lookup after it has passed leaves nothing |
| `B2buaRuns.InviteThenFound` | b2bua.mko:209-233 | an accepted invitation is found from both sides while recent |
| `B2buaDialogs.InviteAcceptedIff` | b2bua.mko:209-233 | an INVITE is accepted if and only if it has one target, a key, a number and a form that parses, its session is not in use, and it can be stored |
| `B2buaDialogs.InviteRecords` | b2bua.mko:128-164 | an accepted INVITE leaves each of the twenty-two fields as given and the index entry |
| `B2buaDialogs.AckHasInviteNumber` | b2bua.mko:235-258 | from an accepted INVITE on, over any run without another one for the call and while it is in use, an ACK goes out under the number of that INVITE and changes nothing but the time stamp |
| `B2buaDialogs.OtherMethods` | b2bua.mko:238-238 | a method that is neither ACK, BYE nor INVITE is not relayed, and changes at most the time stamp or removes an idle session |
| `B2buaDialogs.RequestPends` | b2bua.mko:247-257 | a BYE or INVITE becomes what is pending, under its own number and the one it goes out with, and an INVITE that can be rewritten is kept |
| `B2buaDialogs.ResponseExact` | b2bua.mko:275-300 | a response counts if and only if its session is in use, it answers an INVITE and the caller's Via is known; it confirms exactly on a success code, and a tagged address is remembered |
| `B2buaDialogs.OnlyByeToPeer` | b2bua.mko:311-317 | only a BYE of a session in use is relayed toward the caller |
| `Events.SendNotifyInPlace` | event_package.mko:230-278 | one notification renews or removes the stored subscription and counts up a dialog resource's version |
| `Events.HandleSubscribe` | event_package.mko:283-377 | ignores, refuses or accepts a SUBSCRIBE from its header values, ends or stores the subscription under its clamped expiry, marks the first notification pending, and answers with expiry and tag |
| `Events.Notify` | event_package.mko:383-409 | the slot loop has the effect of the scan and counts its hits |
| `Events.FlushPending` | event_package.mko:413-434 | the flush loop likewise |
| `Events.Sweep` | event_package.mko:438-462 | the sweep loop likewise, stopping at its limit |
| `EventLaws.ReadOfPack` | event_package.mko:48-56 | a subscription whose fields hold no line end is read back exactly as packed |
| `EventLaws.RenewedReads` | event_package.mko:263-270 | renewing keeps every field but the CSeq number |
| `EventLaws.HitEffect` | event_package.mko:230-278 | a notification changes its own subscription only, and no ring entry |
| `EventLaws.NotifyScanEffect` | event_package.mko:383-409 | a scan notifies each stored subscription whose event and resource are the ones given and whose expiry is after now once per slot naming it, nobody else, and raises its CSeq by what was sent |
| `EventLaws.FlushScanEffect` | event_package.mko:413-434 | a flush notifies each marked stored subscription that a slot names exactly once and removes its mark; other marks stay |
| `EventLaws.SweepScanEffect` | event_package.mko:438-462 | a sweep removes only expired subscriptions, each with one last notice, and none it looked at is left when it stops before its limit |
| `EventRuns.RunKeepsRegistered` | event_package.mko:58-66 | over any run of subscribing, unsubscribing, notifying, flushing, sweeping and changes to every other entry of the cache, every stored subscription is named by a slot |
| `EventRuns.SubscribeAnswered` | event_package.mko:283-377 | after any run, a SUBSCRIBE is ignored or refused without effect, or accepted: with expiry 0 nothing of the subscription is left and one last notice went out if there was one; otherwise the answer carries exactly the lifetime, between 60 seconds and the longest allowed, and the tag of the subscription that is now stored and marked |
| `EventRuns.SubscriptionReadsBack` | event_package.mko:48-56 | and that subscription reads back as asked when the header values hold no line ends |
| `EventContents.AcceptedStores` | event_package.mko:283-377 | an accepted SUBSCRIBE stores, field by field, the sender, request URI, event, tags, Call-ID, number and contact it names, for the seconds it asks for within a minute and the longest allowed |
| `EventContents.NotifiedOfItsOwn` | event_package.mko:283-409 | from then on, whatever happens but another SUBSCRIBE for it, while the subscription is stored a notification reaches it if and only if the event is the one it named, the resource its request URI, and its lifetime has not passed |
| `EventContents.NotifyNotices` | event_package.mko:230-278 | every notice of a scan carries the dialog and contact of a subscription stored before it, a number above its last, and the whole seconds left |
| `EventContents.FlushNotices` | event_package.mko:230-278 | so does every notice of a flush |
| `EventContents.SweepNotices` | event_package.mko:230-278 | and of a sweep, which ends what it notifies |
| `EventContents.VersionCounts` | event_package.mko:230-278 | a notice counts up the version of its resource if and only if it is of the dialog event |
| `EventContents.EventIsNamed` | event_package.mko:285-297 | the event is named by what stands before the first semicolon, blanks and letter case apart |
| `EventContents.ContactIsNamed` | event_package.mko:312-322 | the contact is what stands between the first angle brackets, or the user's own address where that is empty |
| `EventContents.BareContact` | event_package.mko:312-322 | without brackets it is the whole value |
| `EventContents.CseqIsNumber` | event_package.mko:327-334 | the number is the one before the first blank of CSeq |
| `EventContents.LongestIs` | event_package.mko:25-31 | the longest lifetime is the environment's number within a minute and a day, an hour by default |
| `EventContents.ExpiryAsked` | event_package.mko:305-310 | an hour is asked for when no number is named |
| `EventContents.SupportedIff` | event_package.mko:15-23 | an event is supported if and only if the comma list of the environment names it |
| `EventRuns.NotifyReachesAll` | event_package.mko:383-409 | after any run a notification reaches each stored subscription at least once if its event field equals the event, its resource field the resource and its expiry is after now, and otherwise never |
| `EventRuns.NotifyReachesEachOnce` | event_package.mko:383-409 | exactly once under the same three conditions, if no key was stored again while an old slot still named it |
| `EventRuns.FlushSendsEachOnce` | event_package.mko:413-434 | after any run a flush sends each marked live subscription exactly one notification and leaves none marked |
| `EventRuns.SweepRemovesExpired` | event_package.mko:438-462 | after any run a sweep returning less than 256 leaves no subscription whose expiry is positive and not after now; no sweep removes another |
| `EventRuns.ResubscriptionLostEarly` | event_package.mko:58-66 | a subscription made, ended and made again is dropped by as few other subscriptions as the capacity less one, and by no fewer |

## Left out

- Sockets, TLS, threads, selectors and HTTP: a stream is a list of deliveries, a socket a number and a bound port, and requests are handled one at a time; what concurrent handlers could interleave is not modelled.
- Everything that runs SQL (users, routes, billing, control resources, dialplan rules): the row a query returns is a parameter.
- sha256, MD5, random draws, clocks, URI and address parsing, JSON, base64 and UTF-8 decoding: parameters. The JSON decoder may also raise an error that is not caught; which depth of nesting does that depends on the interpreter. The SDP laws about a written address ask of the resolver only that its spelling of that one address reads back as the address and holds no CR, LF or NUL.
- The SIP header, URI and message builders that are not in the modelled files, so the B2BUA and event laws speak of the stored state, CSeq numbers and index, not of the text sent; sip_validate_message appears as a yes or no given to an invitation.
- Wrap-around of 64-bit counters, and the early refusal of a counter gone negative beyond what B2bua.LegTable.Store keeps of it.
- Canonical bencode input: the decoder accepts unsorted keys, and so does the model.
- HssStore.update, which the HTTP interface uses and which can fail halfway through its fields.
- Subscribers are values in the store's sequence, in the dictionary's order; two references to one subscriber object are not modelled.
- The worker's string builtins follow their names: trimming takes blanks and the characters 9 to 13 off both ends, lower-casing changes A to Z only, and searching gives the first position.
- BencodeLaws.DecodeOfEncode: integers have at most 4300 digits, the limit of Python's int().
- Seed loading, command lines, the parsing of allow-lists (whether a datagram comes from an allowed source is given) and the clamps of the environment, apart from those of the rate limit and the event packages.
- The stored NOTIFY CSeq restarts from the request when a SUBSCRIBE refreshes a dialog, so no law follows it across a refresh.
- The ban ring of security.mko, which is used with two capacities at once, and the other rings not named in WorkerRings.WorkerRingsApart.
- The database-driven header rules that call the modelled scans (headers.mko:199 on).
- Sdp.ParseSdpLoop: text is taken as ASCII, one octet a character, which is what the control channel lets through.
- DigestRuns.ReplayRejected: says nothing while the database is down, when the check accepts every request without looking.
- DigestCounts.AcceptedCountsIncrease: needs the count entry to stay cached and no count of 0, as DigestZeroCount.ZeroThenLowerAccepted shows it must.
- RateLimit.AdmissionsBounded: needs the bucket to stay cached; an evicted bucket starts full.
- HeaderMarks.AddLandsIff: leaves out a header named Content-Length, for which cutting a line that ends in that very header can give the same text as a new line.
- B2buaRuns.RunCoherent: needs each new downstream Call-ID to be unused, which the source gets from 16 random octets.
- Events.HandleSubscribe: the values of the headers and the parts of the addresses are given, and the answer is its code, expiry and tag rather than its text.
