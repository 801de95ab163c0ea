# A verified model of a NATS Core server

This project models the core of a NATS Core server — the protocol parser, the subscription
registry and its per-publisher cache, queue groups and auto-unsubscribe, the outbound queue with
its backpressure and close path, the batching writer, and the frame printer with its bump arena —
and proves what that core promises, over every input, every cut of a stream and every
interleaving.

`dafny verify dfyconfig.toml` checks everything. Sections follow the path of a message.

* **In.** `Lines` parses one control line, `Grammar` says without the parser which lines ask for
  what, `Parser` is the resumable two-state machine, `Cuts` the reference it refines, `Dispatch` what
  a connection acts on, `Publishing` and `ClientFrames` the client's side of it, `Conversation` whole
  conversations and how they end, and `Intake` what the parser guarantees to the rest of the server.
* **Through.** `Subjects` is the subject grammar and matcher, `Registry` the index, `Groups` the
  queue-group choice, `Routing` the step system of routes racing with changes to the registry,
  `Interest` the cache as an object, `Offers` whom routes offer their messages to, `AutoUnsub` the
  delivery limits, `Sessions` SUB, UNSUB, expiry and close over each connection's own map of sids.
* **Out.** `Outbox` is the byte-counted queue as a step system whose steps are single atomic
  operations and lock sections; `OutboxWake`, `OutboxPressure`, `OutboxOrder` and `OutboxClose` are
  its theorems, `OutboxRuns` builds runs of it, and `OutboxObject` is the same as an object. `Writer`
  is the batch writer, and `EndToEnd` is queue and writer as one step system. `Delivery` is the frame
  and the reader that cuts a stream of them, `Subscriber` what a subscriber learns from one, `Arena`
  and `Frames` how it is laid down, `Retention` what memory that keeps, and `Ceiling` what that is in
  terms of the hard mark.

Concurrent parts are step systems (`State`, `Action`, `Enabled`, `Next`): an invariant is proved
step by step and then for every run from the initial state, for any number of publishers. The
objects (`class`es whose methods change fields in place) are proved to do those steps.

## Where the code and its own words differ

The model follows the code. Each of these has a lemma with a concrete input or run, and the exact
condition under which the promise holds; for the memory ceiling there is no such condition, but a
bound that always holds and a family of runs that comes within a constant factor of it.

* **Bodies in pieces.** A body that arrives in three, five, … pieces is put together with the last
  piece first (`ThreeReads`); it comes back in order exactly for one piece or an even number
  (`OrderKeptIff`, `CutBodies`).
* **Lone short writes.** A short write of a batch of one buffer drops its count twice, and an
  abandoned one drops the buffer (`LoneShort`, `WireSkips`). The wire is right exactly when that
  never happened (`WriterPreserves`); after it the writer cannot finish a batch (`MishapIsFatal`).
* **Lost wake-up.** The undo of a control line refused at the hard mark can cross the soft mark
  without a notification (`LostIff`), and a run forgets nobody if and only if none of its steps
  does so while someone is parked and no other notification is coming (`NoLostWakeUp`). Any two
  frames that cross the soft mark and leave no room for a line can lose a wake-up to it
  (`WakeUpLost`), as two short messages can to a PONG (`PongLosesWakeUp`), and the publisher waits on
  until something else happens (`Forgotten`).
* **Rotation.** The group probe wraps at 2^64 and then skips a member unless the group's size
  divides 2^64 (`MissesOne`, `CoversIff`, `NobodyMissedIff`).
* **Late expiry.** Removal goes by connection and sid, so the expiry of a spent subscription can
  take a newer one (`ExpiryTakes`, `LateExpiry`).
* **Spent sids.** A spent subscription stays in its connection's map, and its sid cannot be used
  again until it is unsubscribed (`SpentSidListed`, `SpentSidStaysSpent`).
* **SUB after close.** A SUB that a batch runs after another task closed the connection registers
  all the same (`SubAfterCloseLeaks`). It stays, if and only if the batch does not go on to
  unsubscribe that sid, and no older subscription like it is taken out late
  (`SubAfterCloseStaysIff`), as after a refused delivery (`RefusalTakesNewer`).
* **Memory ceiling.** A connection's frames pin up to about twice their bytes, not their bytes and
  one partial chunk (`ArenaPins`, `HalvesTakeAChunkEach`); in terms of the hard mark, up to about
  twice that (`MemoryCeiling`).
* **Status frame assertion.** The length the debug assertion expects is right only for a size of
  fifteen digits (`StatusAssertion`).
* **Line feeds in subjects.** A lone line feed does not end a line, so a subject may hold one
  (`LineFeedGetsIn`), and a reader that looks for line feeds then takes the frame for something else
  (`LineFeedBreaks`). Frames are read back if and only if the first line of each ends in the right
  number (`RoundTripIff`), which is so without line feeds (`OneLineReadable`) and, with them, by
  accident (`RightByAccident`).
* **A line limit of zero.** Configured so, an empty line cut between its two bytes is refused with
  other words than whole; cuts never matter if and only if the limit allows a byte
  (`CutsNeverMatterIff`, `CutInvariance`).
* **Failed reads.** Nothing of a read that fails is acted on, so what a connection acts on of a bad
  stream depends on the cuts (`PingThenRubbish`): it is the events of the bytes before the read that
  fails, however those were cut (`ActsOnGoodReads`).

## Model

| member | source | states |
|---|---|---|
| ByteStrings.FindCrlfFrom | crates/server/src/proto.rs:658-663 | the position found holds a CRLF pair and no earlier one does; none found means there is none |
| Decimal.ReadSize | crates/server/src/proto.rs:644-656 | the digit loop returns the number one to nine digits denote, and -1 for everything else |
| Decimal.PushU64 | crates/server/src/routing.rs:657-669 | filling a 20-byte buffer from the end never runs off its front for any 64-bit number, and appends exactly its decimal digits |
| Decimal.SizeRoundTrip | crates/server/src/proto.rs:644-656 | every size below 10^9 that is printed is read back as itself |
| Decimal.SizeReadIff | crates/server/src/proto.rs:644-656 | a size is read as n exactly from the digits of n after any zeros, nine in all at most; anything else is read as -1 |
| Decimal.ValueFront | crates/server/src/proto.rs:648-654 | each digit counts for the power of ten of its place |
| Lines.Args.Push | crates/server/src/proto.rs:709-715 | ranges past the fifth are counted and not kept |
| Lines.SplitArgs | crates/server/src/proto.rs:687-707 | one pass over a line gives the ranges, in the whole line, of its maximal runs of non-blank bytes, and their true count even past the ranges kept |
| Lines.TokenLen | crates/server/src/proto.rs:447-462 | the verb is the longest blank-free prefix |
| Lines.ArgAt | crates/server/src/proto.rs:566-568 | the first non-blank byte, or none exactly when all are blank |
| Grammar.FieldsIff | crates/server/src/proto.rs:687-707 | what a line's arguments are split into are exactly the words that stand between its spaces and tabs |
| Grammar.VerbIff | crates/server/src/proto.rs:447-561 | a line has exactly the verb it begins with in letters of either case; PING, PONG, CONNECT and INFO need no blank after them, the others do |
| Grammar.SubscribeIff | crates/server/src/proto.rs:521-539 | a line subscribes with a subject, a queue and a sid if and only if it says SUB and these, in this order |
| Grammar.UnsubscribeIff | crates/server/src/proto.rs:540-558 | a line unsubscribes a sid, with a limit, if and only if it says UNSUB and these; the limit is -1 if there is none or it is no size |
| Grammar.PublishIff | crates/server/src/proto.rs:576-623 | a body is awaited if and only if the line declares it, with subject, reply and sizes in their places, no more headers than body and no more body than the limit |
| Grammar.OversizeIff | crates/server/src/proto.rs:611-615 | a line is refused with `Maximum Payload Violation` if and only if it declares a body over the limit |
| Grammar.BadHpubIff | crates/server/src/proto.rs:589-609 | an HPUB line is left to the connection as bad if and only if its arguments are no publish |
| Grammar.ConnectIff | crates/server/src/proto.rs:482-495 | CONNECT takes all that follows it from the first byte that is not blank, and nothing else is a CONNECT |
| Grammar.InfoIff | crates/server/src/proto.rs:496-507 | the same for INFO |
| Grammar.PingIff | crates/server/src/proto.rs:461-472 | PING and PONG are the lines that begin so, whatever follows |
| Grammar.AckIff | crates/server/src/proto.rs:508-520 | +OK and -ERR stand alone or before a blank, and -ERR needs the blank |
| Grammar.SilentIff | crates/server/src/proto.rs:482-623 | a line closes the connection without a word if and only if it is CONNECT or INFO with nothing after it, a PUB that is no publish, or a SUB or UNSUB with too few or too many arguments |
| Grammar.UnknownIff | crates/server/src/proto.rs:447-561 | a line is an unknown operation if and only if it has no verb, or one that needs arguments and not even a blank after it |
| Parser.Parts.Push | crates/server/src/proto.rs:186-196 | the lone slot and the list hold the pieces received so far, the latest of an odd number in the slot |
| Parser.Parts.TakeBody | crates/server/src/proto.rs:217-234 | the body handed on is the pieces in order, but the last in front when their number is odd |
| Parser.Machine.Take | crates/server/src/proto.rs:370-378 | exactly the missing body bytes that are there are taken off the stream, as one piece |
| Parser.Machine.LineTurn | crates/server/src/proto.rs:311-369 | a turn at a line: the same events, state, remaining bytes and error as the step function, for every buffer and every limit |
| Parser.Machine.BodyTurn | crates/server/src/proto.rs:370-422 | a turn in a body: waits, publishes, or fails on the first byte that is not where the terminator must be, deferring the failure for HPUB |
| Parser.Machine.FeedInto | crates/server/src/proto.rs:303-425 | the loop appends to the caller's batch the events of `Feed`, leaves the machine in its state and returns its leftover and its error |
| Cuts.FeedRefines | crates/server/src/proto.rs:303-425 | one call, pieces read in wire order, is the reference parse of the bytes held followed by the bytes given |
| Cuts.PaceStable | crates/server/src/proto.rs:311-333 | a decision taken without needing more bytes is the same however many follow, including the refusal of an overlong line before and after its end is seen, if and only if the limit is not zero with the cut inside the CRLF of an empty line |
| Cuts.ParseSplit | crates/server/src/proto.rs:303-425 | parsing x and then y is parsing x + y, an ending being final, if and only if the cut does not come to fall so |
| Cuts.CutInvariance | crates/server/src/proto.rs:303-425 | for any chunks and any limits: the events, the error and the leftover of the stream cut that way are those of the stream whole, if and only if the limit allows a byte or the first CRLF is not cut off after one byte |
| Cuts.CutsNeverMatterIff | crates/server/src/proto.rs:303-425 | that holds of every cut of every stream if and only if the limit of a control line is at least one byte |
| Cuts.AssembledOrder | crates/server/src/proto.rs:165-235 | one piece or an even number gives the body in order; an odd number gives the last piece before the rest; no byte is lost |
| Cuts.OrderKeptIff | crates/server/src/proto.rs:165-235 | pieces of given sizes come back in order whatever their bytes if and only if there is one or an even number of them (or none) |
| Cuts.CutBodies | crates/server/src/proto.rs:303-425 | event by event, what a cut stream hands on equals what the whole hands on, or, for an odd number of pieces, that with the body rotated at the last cut |
| Cuts.RunPieces | crates/server/src/proto.rs:370-378 | no body has more pieces than there were reads |
| Cuts.TwoReads | crates/server/src/proto.rs:303-425 | of a stream cut once, anywhere, under any limits, the parser makes exactly the events of the stream whole, bodies included |
| Dispatch.ActsOnPrefix | crates/server/src/client.rs:622-639 | however a stream is cut, what is acted on followed by what is thrown away with the failing read are the events of the whole stream |
| Dispatch.FailureCloses | crates/server/src/client.rs:623-633 | the parser never fails in the way after which a connection reads on, so the failing read is the last |
| Dispatch.ActsOnGoodReads | crates/server/src/client.rs:622-639 | what is acted on is the events, in one read, of the bytes of the reads acted on, which are the reads up to the first with which the bytes so far fail or that closes the connection |
| Dispatch.WholeActsOnLeast | crates/server/src/client.rs:622-639 | what is acted on of a stream in one read is a prefix of what is acted on of any cut of it, and the same if and only if the stream does not fail or the bytes before the failing read hold no event |
| Dispatch.CutsAreNested | crates/server/src/client.rs:622-639 | of two cuts of one stream, one acts on a prefix of what the other acts on |
| Dispatch.PingThenRubbish | crates/server/src/client.rs:622-639 | a PING before a bad line is acted on in two reads and not in one |
| ClientFrames.PubFrame | crates/core-it/src/wire.rs:287-296 | the printer's output is the PUB frame the round trip is about |
| ClientFrames.HpubFrame | crates/core-it/src/wire.rs:300-318 | the same for HPUB, with both sizes |
| Publishing.LineRead | crates/server/src/proto.rs:576-623 | the printed control line of any publish is read as a request for exactly its body if that is within the limit, and is otherwise refused with `Maximum Payload Violation` |
| Publishing.FrameRead | crates/core-it/src/wire.rs:287-318 | a printed frame in front of any bytes gives its own operations and leaves those bytes |
| Publishing.PublishRoundTrip | crates/core-it/src/wire.rs:287-318 | any list of PUB and HPUB frames, received in any reads, gives back those publishes in order, each HPUB after its marker, with nothing left over, bodies in wire order |
| Publishing.PublishRoundTripExact | crates/core-it/src/wire.rs:287-318 | in at most two reads the bodies handed on are the ones published |
| Publishing.ThreeReads | crates/server/src/proto.rs:186-234 | any publish, PUB or HPUB, whose body comes in three reads, parts a, b and c, is handed on with the body c, a, b |
| Conversation.ConversationRead | crates/server/src/proto.rs:303-425 | any operations, spelt in any way the grammar admits and received in any reads, and whatever follows them: their events in order, and then what comes of the rest |
| Conversation.LineFails | crates/server/src/proto.rs:311-369 | after any operations in any reads, a line that is too long, declares too much, has the wrong arguments or no verb fails with just that complaint, and all before it is told |
| Conversation.HpubFails | crates/server/src/proto.rs:335-350 | an HPUB that is no publish ends the batch with its marker and no error |
| Conversation.BodyFails | crates/server/src/proto.rs:382-422 | a body that does not end where its line said fails at the first byte that is wrong, for a PUB with an error and for an HPUB with a marker |
| Conversation.EndlessLine | crates/server/src/proto.rs:320-327 | a line without an end is waited for up to sixteen times the limit and no longer |
| Conversation.LineFeedFails | crates/server/src/proto.rs:312-318 | a line feed where a line begins is an unknown operation |
| Intake.EveryPublishFits | crates/server/src/proto.rs:599-656 | from any bytes cut anywhere under any limits, every publish has headers no longer than its body and a body below 10^9 bytes and within the payload limit, of the size it states |
| Intake.LineFeedGetsIn | crates/server/src/proto.rs:658-663 | a subject may begin with a line feed |
| Subjects.JoinSplit | crates/server/src/subjects.rs:21-83 | the tokens of a subject determine it |
| Subjects.Tokens.Next | crates/server/src/subjects.rs:21-83 | the iterator yields the tokens of the subject one by one, and ends after the last |
| Subjects.MatchesLoop | crates/server/src/subjects.rs:58-83 | the two advancing iterators compute the token-by-token match |
| Subjects.IsValidLoop | crates/server/src/subjects.rs:21-42 | one pass with a flag decides: no empty token, no blank in a longer one, `>` only last |
| Subjects.MatcherRefines | crates/server/tests/subjects.rs:101-116 | on every valid filter and every subject the walk, the indexed matcher of the tests and the meaning of the wildcards agree, `>` needing a token |
| Subjects.RefinesIff | crates/server/src/subjects.rs:58-83 | the walk and the indexed matcher agree on all subjects if and only if no `>` stands before the last token |
| Subjects.LiteralMatches | crates/server/src/subjects.rs:44-83 | a valid filter without wildcards matches a subject if and only if it is that subject |
| Subjects.ValidIff | crates/server/src/subjects.rs:21-42 | byte by byte: legal if and only if not empty, every dot has a token on both sides, white space is a token by itself, and a `>` that is a token is the last byte |
| Subjects.WildcardIff | crates/server/src/subjects.rs:44-48 | wildcards are the `*` and `>` that are tokens by themselves |
| Registry.IndexAgrees | crates/server/src/routing.rs:374-399 | literal look-up and wildcard scan find exactly the subscriptions whose filter matches, each as often as it is registered, literals first and each kind in order of registration |
| Registry.SameIsListed | crates/server/src/routing.rs:226-253 | whether a connection already holds a subject under a sid can be read off the one list it would join |
| Registry.Index.constructor | crates/server/src/routing.rs:206-224 | an empty registry at generation zero |
| Registry.Index.Insert | crates/server/src/routing.rs:226-253 | refused exactly for an invalid subject; otherwise one more entry unless the same one is there; the count, the lists and the map stay in step, and the generation moves exactly when the set did |
| Registry.Index.Remove | crates/server/src/routing.rs:255-259 | leaves everything but that connection's entries under that sid in the one list concerned, and always moves the generation |
| Registry.Index.RemoveSub | crates/server/src/routing.rs:554-577 | the count drops by what left, and no literal is left with an empty list |
| Registry.Index.RemoveConn | crates/server/src/routing.rs:262-278 | exactly the other connections' entries stay, in order, in the map, the list and the count; the generation moves exactly when something left |
| Registry.Index.SweepLiterals | crates/server/src/routing.rs:262-278 | the pass over the literals, in any order, removes this connection's entries, drops the lists it empties and counts what it removed |
| Registry.Index.Changed | crates/server/src/routing.rs:487-489 | the history gains the current set under the next generation |
| Registry.Index.Resolve | crates/server/src/routing.rs:374-399 | the list computed is the resolution of the subject, and the flag says whether a queue subscription is on it |
| Groups.PickGroups | crates/server/src/routing.rs:410-460 | the sampling with its list of groups seen computes the choice specified, whatever each member answers at the moment it is asked |
| Groups.FindMembers | crates/server/src/routing.rs:428-440 | the loop collects the positions of the group's subscriptions from a position on |
| Groups.MembersAll | crates/server/src/routing.rs:428-440 | which are all of them and nothing else |
| Groups.FindFirst | crates/server/src/routing.rs:440-456 | the loop finds the first member in probe order that meets the condition, or none |
| Groups.GroupChoice | crates/server/src/routing.rs:410-460 | for every list and start, and however connections close, fill and drain meanwhile: plain subscriptions all kept in order; at most one per group, the first asked that could take the message; if the probes rotate, one if a member could throughout, and one that had room if a member had throughout |
| Groups.GroupChoiceAtOnce | crates/server/src/routing.rs:410-460 | if nothing changes meanwhile and the probes rotate: one exactly when a member is eligible, with room exactly when an eligible member has room |
| Groups.CoversIff | crates/server/src/routing.rs:440-456 | every member is probed if and only if no sum leaves 64 bits or the group's size divides 2^64 |
| Groups.NobodyMissedIff | crates/server/src/routing.rs:440-456 | a group is served whenever a member can take the message, whoever that is, if and only if the probes rotate |
| Groups.MissesOne | crates/server/src/routing.rs:440-456 | when they do not, the member that no probe reaches |
| Groups.FirstIsServed | crates/server/src/routing.rs:440-460 | a group gets the first of its members, in the order of the wrapped sums, that had room when asked; if none had, the first that could take the message at all; if none could, nothing |
| Groups.InItsPlace | crates/server/src/routing.rs:410-460 | the list keeps the order of the subscriptions, each group's choice where its first member is |
| Interest.Interest.constructor | crates/server/src/routing.rs:526-536 | a cache that remembers no generation |
| Interest.Interest.Lookup | crates/server/src/routing.rs:311-332 | after the look-up the cache holds what the registry now resolves the subject to, resolved anew only if generation or subject moved on; groups are sampled beside it |
| Interest.PickedIsChoice | crates/server/src/routing.rs:319-332 | what the sampling returns is, without repeats, all the plain cached subscriptions in order and at most one of each group |
| Routing.HistoryStep | crates/server/src/routing.rs:226-278 | every step keeps: entries are distinct and legal, the set changes only under the lock and is recorded with each generation, and what has left never returns |
| Routing.CoherentStep | crates/server/src/routing.rs:311-399 | every step of every route, change and expiry keeps each cache equal to the match set of the generation it recorded |
| Routing.CacheCoherence | crates/server/src/routing.rs:311-399 | in every interleaving, the answer a route uses is the registry's set of one generation filtered by a match with the subject the route publishes to, a generation no older than the one it loaded; the route delivers to all of it, or, with a queue group in it, to all the plain ones in order and to no two of one group |
| Routing.NeverPassedOver | crates/server/src/routing.rs:311-399 | in every interleaving, a plain subscription that matches, in the set of the generation a route loaded and still in the set, is on the list the route delivers to |
| Routing.NeverToRemoved | crates/server/src/routing.rs:311-399 | in every interleaving, a route that loads the generation after a removal moved it delivers nothing to what was removed |
| Routing.ExpiryTakes | crates/server/src/routing.rs:357-363 | a subscription survives an expiry if and only if none of the spent has its connection and sid in its list |
| Offers.EntriesAsAsked | crates/server/src/routing.rs:56-69 | in every interleaving, each entry has the subject, queue, sid and connection some registration of the run asked for |
| Offers.RegisterAdds | crates/server/src/routing.rs:226-253 | a registration adds the one entry it asks for, unless its connection has that subject under that sid |
| Offers.LeavesIff | crates/server/src/routing.rs:255-278 | an entry leaves when one with its connection and sid in its list is taken out or expires, and when its connection is dropped, and not otherwise |
| Offers.LoadedIsCurrent | crates/server/src/routing.rs:318-321 | what a route loaded is the number of changes made before it looked |
| Offers.HistoryIsTrue | crates/server/src/routing.rs:487-489 | whenever nobody holds the lock, the set there is then is the one on record for the generation there is then |
| Offers.OffersInOrder | crates/server/src/routing.rs:342-356 | in every interleaving, a route that is done with its list has offered the message to everyone on it, once and in order |
| Offers.RefusedLeave | crates/server/src/routing.rs:476-480 | and those whose connections were too slow have left the registry once it is done |
| Offers.NotBeforeLimit | crates/server/src/routing.rs:85-89 | in every interleaving, nothing is among the expired before as many messages were counted as its limits said, unless its connection refused one |
| AutoUnsub.BalancedStep | crates/server/src/routing.rs:463-484 | every message given to a subscription has been counted, or is about to be by the task that gave it |
| AutoUnsub.AutoUnsubBound | crates/server/src/routing.rs:340-364 | once a limit m is above the count and stays, P interleaved publishers give at most m + P - 1 messages |
| AutoUnsub.AutoUnsubAtomic | crates/server/src/routing.rs:340-364 | and at most m when one route is under way at a time |
| AutoUnsub.BoundAttained | crates/server/src/routing.rs:463-484 | for every number P of publishers and every limit m a run that gives m + P - 1, so the bound is tight |
| AutoUnsub.LateExpiry | crates/server/src/routing.rs:554-577 | a run in which the expiry of a spent subscription takes a newer one that has no limit |
| Sessions.InvStep | crates/server/src/client.rs:694-723 | SUB, UNSUB, delivery, refusal, expiry in time or late, and close each keep the registry and the connections' maps in step, on open connections and closed ones |
| Sessions.RegistryInvariant | crates/server/src/client.rs:694-723 | over every run, late expiries and batches after a close included: each connection and sid has at most one entry, the one its map holds; and what a map holds is registered if and only if no expiry took it |
| Sessions.SpentSidListed | crates/server/src/client.rs:702-710 | after SUB, UNSUB with limit one and one delivery, the sid is listed and nothing is registered |
| Sessions.EntriesAsAsked | crates/server/src/client.rs:694-710 | over every run, each entry has the connection, subject, queue and sid that some SUB of the run asked for, and subject and queue are legal |
| Sessions.SubscribeAdds | crates/server/src/client.rs:694-710 | after any run, a SUB adds the one entry it asks for if that is legal and the sid is not in use, and otherwise changes nothing |
| Sessions.LimitDecides | crates/server/src/client.rs:715-723 | after any run, an UNSUB with limit m on an entry that was given d messages leaves it exactly if d < m, and it then stays, whatever happens elsewhere, exactly until message number m |
| Sessions.UnlimitedStays | crates/server/src/routing.rs:85-89 | an entry without a limit stays, whatever happens elsewhere |
| Sessions.NotBeforeLimit | crates/server/src/routing.rs:85-89 | with late counts and late expiries too, an entry leaves only once as many messages as its limit were counted |
| Sessions.SpentSidStaysSpent | crates/server/src/client.rs:702-723 | a SUB on a spent sid changes nothing; after an UNSUB the sid is still spent exactly if the limit is above the count |
| Sessions.SubAfterCloseStaysIff | crates/server/src/client.rs:634-638 | after any run, a SUB on a closed connection registers, and over every later run its entry stays if and only if no UNSUB without a limit of that connection and sid follows and no late expiry of one like it |
| Sessions.SubAfterCloseLeaks | crates/server/src/client.rs:634-638 | a run that leaves a closed connection registered |
| Sessions.RefusalTakesNewer | crates/server/src/routing.rs:476-480 | a run in which the removal of a refused subscription takes the one its batch made after the close |
| Sessions.Meter.SetLimit | crates/server/src/routing.rs:74-82 | over exactly if the limit is not above the count, and then there is no limit; otherwise it is the one asked for |
| Sessions.Meter.Account | crates/server/src/routing.rs:85-89 | a limit above the count is reached at exactly the delivery whose number it is; no limit is never reached |
| Sessions.Session.Subscribe | crates/server/src/client.rs:694-710 | legal exactly if subject and queue are; then, on a sid that is not in use, the map and the registry gain one entry with just this connection, subject, queue and sid, and otherwise nothing changes; that is the SUB step |
| Sessions.Session.Unsubscribe | crates/server/src/client.rs:715-723 | the handler does the UNSUB step to the map, the registry and the limit, an unknown sid changing nothing |
| Sessions.Session.Close | crates/server/src/client.rs:413-436 | closing drops the map and every entry of the connection |
| Outbox.ExactStep | crates/server/src/client.rs:208-224 | every atomic step of publishers, reader, writer and close keeps the counter equal to bytes queued, held and being subtracted plus the one push in flight |
| Outbox.Accounting | crates/server/src/client.rs:208-323 | over every run: the counter is exact while the queue lives, accepted bytes stay within the hard mark, no subtraction underflows, and a queue that is gone has room |
| OutboxRuns.RacingDrainWraps | crates/server/src/client.rs:274-323 | for any hard mark and any frame within it a run in which a drain past its gate when the close zeroes the counter wraps it by the frame's length, and there is room all the same |
| Outbox.ReachedByRun | crates/server/src/client.rs:208-323 | what has every kept property of the start is the end of a run, so the runs below exist |
| OutboxRuns.ZeroStays | crates/server/src/client.rs:274-323 | over every run, a counter the close has zeroed is zero for good, unless a drain was past its gate by then |
| OutboxClose.FewAfterClose | crates/server/src/client.rs:375-391 | over every run from where a close has begun, no more frames are accepted than pushes were under way by then |
| OutboxClose.ClosedStops | crates/server/src/client.rs:762-777 | a publisher that comes to a closed connection, to push or to wait, or looks up from waiting, is done with it |
| OutboxClose.DeadStays | crates/server/src/client.rs:762-777 | and queues and waits there no more |
| OutboxWake.NoLostWakeUp | crates/server/src/client.rs:290-323 | over every run: in each of its states every parked publisher is notified, has no room, or has a notification coming, if and only if no step of the run undoes a refused control line across the soft mark while someone is parked and no other notification is coming |
| OutboxWake.LostIff | crates/server/src/client.rs:208-216 | the undo of a refused control line forgets someone if and only if it crosses the mark while someone waits unnotified and no other notification is coming |
| OutboxWake.WakeUpLost | crates/server/src/client.rs:375-380 | for any marks, any two frames that cross the soft mark and any control line they leave no room for, a run from an empty queue that writes both frames and forgets their publisher |
| OutboxWake.PongLosesWakeUp | crates/server/src/client.rs:375-380 | one such run with frames the server builds and a PONG |
| OutboxWake.Forgotten | crates/server/src/client.rs:290-303 | a publisher forgotten over a quiet queue stays parked until new work or a close |
| OutboxPressure.BackpressureBound | crates/server/src/client.rs:762-777 | over every run of any number of publishers that wait after the soft mark: the counter is at most the soft mark plus the frames of the one message each publisher that is to wait is on, plus control bytes counted since; publishers that wait for nothing count for nothing |
| OutboxPressure.OneWaitEach | crates/server/src/client.rs:762-777 | over every run, a publisher that begins its next message has waited for room and found it once for each frame that crossed the soft mark |
| OutboxPressure.MessageIs | crates/server/src/client.rs:762-777 | the message bytes the bound speaks of are those of the message each publisher last began |
| OutboxOrder.PublishOrder | crates/server/src/client.rs:261-272 | over every run: each frame accepted is, byte for byte, the one its source published under its number in that run, and the numbers of a source increase along the queue, so it carries a subsequence of what was published, in order; the writer was given a prefix of it |
| OutboxObject.Queue.constructor | crates/server/src/client.rs:227-243 | soft mark at three quarters as integers divide, an empty queue |
| OutboxObject.Queue.Push | crates/server/src/client.rs:208-224 | accepted exactly when the counter stays within the hard mark and someone receives; a refused or dropped frame leaves counter and queue as they were |
| OutboxObject.Queue.PushSteps | crates/server/src/client.rs:208-224 | for a publisher's frame and a control line alike, that is the two steps of the step system, and nothing is dropped from an open connection |
| OutboxObject.PushedTook | crates/server/src/client.rs:208-224 | those two steps add the frame and its bytes exactly when the counter stays within the hard mark and someone receives, whoever pushes |
| OutboxObject.Queue.Drained | crates/server/src/client.rs:274-284 | no-op once gone; otherwise waiters are notified exactly when the counter crosses the soft mark downwards |
| OutboxObject.Queue.Room | crates/server/src/client.rs:311-313 | there is room exactly if the queue is gone or the counter is at the soft mark or under it |
| OutboxObject.Queue.NoMoreWrites | crates/server/src/client.rs:319-323 | the three steps of the end of the close, after which there is room |
| Writer.ConsumedDrops | crates/server/src/client.rs:991-1006 | consuming n bytes of any buffers leaves exactly the bytes after the n-th |
| Writer.InvStep | crates/server/src/client.rs:842-937 | a step keeps the writer's books, and keeps them sound if and only if it is no mishap |
| Writer.WriterPreserves | crates/server/src/client.rs:842-937 | over every sequence of attempts: written followed by held is received if and only if no attempt on a lone buffer was short or abandoned, and then the byte count is what is held and the wire is a prefix |
| Writer.FinishedIsWritten | crates/server/src/client.rs:856-935 | whatever happened, a batch that finished is on the wire to the byte |
| Writer.MishapIsFatal | crates/server/src/client.rs:895-935 | after a mishap the writer owes bytes for ever and never gathers again |
| Writer.LoneShort | crates/server/src/client.rs:948-960 | the exact effect of a lone short write: n bytes out, 2n gone |
| Writer.WireSkips | crates/server/src/client.rs:948-960 | three bytes of which the wire carries the first and the third |
| Writer.Batch.Gather | crates/server/src/client.rs:856-893 | takes the shortest prefix of the queue, of two frames or more, that fills a batch, or all of it; empty frames are dropped from the batch |
| Writer.Batch.WriteBatch | crates/server/src/client.rs:948-988 | what each outcome of the write call leaves in the batch |
| Writer.Batch.Consume | crates/server/src/client.rs:991-1006 | the loop pops whole buffers and cuts the last one |
| Writer.Batch.Turn | crates/server/src/client.rs:895-935 | one turn of the write loop does the step of the step system, and gives up exactly on an error and on a write of nothing |
| EndToEnd.WireFollowsPublishOrder | crates/server/src/client.rs:856-935 | over every run of publishers, reader, close and writer together, every write ending in any way: what is accepted is what was published, each source's in its order; wire, writer, batch and queue end to end are what was accepted if and only if no write of a lone buffer was short or abandoned, and then the wire is a prefix of it |
| EndToEnd.DoneIsDelivered | crates/server/src/client.rs:856-935 | a writer that owes nothing, with nothing gathered or queued, has put every accepted byte on the wire |
| EndToEnd.NeverBlocked | crates/server/src/client.rs:895-935 | what the queue counts as held is what the writer gathered and owes, and nothing once it has given up, so no drain takes more than there is |
| Delivery.StatusSize | crates/server/src/routing.rs:639-653 | the two sizes a status frame prints are the size of its block |
| Delivery.FrameReadBack | crates/bench/src/bin/floodpubsub.rs:382-407 | any MSG, HMSG, stripped or status frame in front of any bytes is read as one whole frame of exactly its length if and only if its first line ends in the right number |
| Delivery.OneLineReadable | crates/bench/src/bin/floodpubsub.rs:382-407 | without line feeds in subject, sid and reply it does, for every size of 64 bits and no other |
| Delivery.RightByAccident | crates/bench/src/bin/floodpubsub.rs:382-407 | a subject with a line feed that is read back all the same |
| Delivery.PartWaits | crates/bench/src/bin/floodpubsub.rs:382-400 | every proper prefix of a frame that can be read back makes the reader wait |
| Delivery.DeliveryRoundTrip | crates/server/src/routing.rs:598-654 | any such frames one after another and any part of one more: the reader's loop takes off exactly those frames, one by one, and keeps the part |
| Delivery.RoundTripIff | crates/server/src/routing.rs:598-654 | of any list of frames whatsoever the reader takes off exactly those frames if and only if the first line of each ends in the right number |
| Delivery.TotalIff | crates/bench/src/bin/floodpubsub.rs:390-396 | a word is taken for the size n if and only if it is the digits of n after zeros, perhaps a plus, with white space around it, and n has 64 bits |
| Delivery.LineRecognised | crates/bench/src/bin/floodpubsub.rs:382-407 | a PING is found, an error is an error, and any other line is stepped over to its end |
| Delivery.MixedRoundTrip | crates/bench/src/bin/floodpubsub.rs:335-358 | deliveries and other lines in any order: the reader's loop takes off exactly the deliveries, one by one, answers each PING, and steps over the rest |
| Subscriber.MessageFields | crates/server/src/routing.rs:612-627 | the control line of a message has exactly these fields, in these places, if and only if subject, sid and reply are words: verb, subject, sid, reply if there is one, for HMSG the size of the headers, and the size of what follows |
| Subscriber.StatusFields | crates/server/src/routing.rs:639-646 | the same for the status frame, both its sizes being 32 and the subject's length |
| Subscriber.MessageReceived | crates/core-it/src/wire.rs:203-273 | a reader that goes by these places learns from a frame its subject, sid, reply and payload, and its headers if the subscriber takes headers |
| Subscriber.StatusReceived | crates/server/src/routing.rs:639-653 | and from a status frame the block with 503 and the unanswered subject, and no payload |
| Delivery.LineFeedBreaks | crates/bench/src/bin/floodpubsub.rs:382-396 | a frame for a subject that begins with a line feed is taken for an error |
| Delivery.FrameFits | crates/server/src/routing.rs:606-617 | a message with a body below 10^9 bytes needs no more than the room it asks for and at most 41 bytes less |
| Delivery.StatusAssertion | crates/server/src/routing.rs:639-652 | the length asserted holds if and only if the size has fifteen digits |
| Arena.Tail.Put | crates/server/src/arena.rs:53-64 | appends within the chunk and leaves what was handed over |
| Arena.Arena.Reserve | crates/server/src/arena.rs:64-78 | room for what was asked, in the current chunk if it has it and in a new one otherwise; every sealed frame untouched |
| Arena.Arena.Undisturbed | crates/server/src/arena.rs:53-83 | whatever is written at the tail, sealed frames keep their bytes, lie apart, and lie before it |
| Arena.Arena.Seal | crates/server/src/arena.rs:81-83 | hands over exactly what was written since the last seal, apart from every earlier frame |
| Frames.BuildFrame | crates/server/src/routing.rs:598-632 | the view handed over holds the frame of the message and nothing else, the chunk is never outgrown, all earlier frames keep their bytes, and the room taken is that of one placement |
| Frames.BuildStatus | crates/server/src/routing.rs:639-653 | the buffer is the status frame, sizes printed before the block they count |
| Frames.BuildAll | crates/server/src/client.rs:385-391 | a connection's deliveries one after another leave every frame as it was built, in the chunks of the layout |
| Frames.ArenaPins | crates/server/src/arena.rs:13-22 | the views of the frames from any one on lie in arrays that together have at most twice the bytes of those views, two chunks and 41 bytes an array, and there are few |
| Ceiling.UnwrittenWithin | crates/server/src/client.rs:208-284 | over every run of a live queue, accepted bytes exceed written bytes by no more than the hard mark |
| Ceiling.MemoryCeiling | crates/server/src/arena.rs:18-22 | over every run of a live queue, the deliveries not yet written whole lie in chunks of at most twice the hard mark and the frame being written, two chunks and 41 bytes a chunk |
| Frames.DeliveriesPin | crates/server/src/arena.rs:13-22 | the same bound for the layout of any messages |
| Frames.HalvesTakeAChunkEach | crates/server/src/arena.rs:18-22 | messages of 4100 bytes pin a chunk each, so their bytes and one chunk is no ceiling |
| Retention.RetiredIsFull | crates/server/src/arena.rs:64-78 | a retired chunk and the first frame of the next hold more than 8192 - 41 frame bytes |
| Retention.RetentionBound | crates/server/src/arena.rs:64-83 | the same bound for any requests that take at most 41 bytes less than they ask for |

## Left out

- Sockets, the accept loop, select, timers, deadlines and signals: a write attempt is a count, an error, an interruption or an abandonment chosen freely.
- Liveness in real time, and weak memory: steps interleave one at a time and every load sees the last store.
- CONNECT and INFO as JSON, configuration, keepalive, server ids, the hasher, random numbers and allocation counters.
- Verbose and pedantic replies, echo, the headers check of a publish and the choice of whom to send a status frame: they would only add easy members. Eligibility in `Groups` is an arbitrary answer to each question.
- Copying of pieces out of the read buffer between calls: it changes where bytes live, not what they are.
- `header_block`, the client's printer of header lines: a header block is an arbitrary byte string here.
- Routing.CacheCoherence: the generation and the counters do not wrap at 64 bits, and which member of a group a route takes is left open.
- Sessions.RegistryInvariant: each handler, and a close, is one step; a close between two handlers of a batch is a step like any other.
- Outbox.Accounting: the length of a frame plus the hard mark stays below 2^64.
- EndToEnd.WireFollowsPublishOrder: a batch may grow without limit, where the code stops at its two limits; giving up at the deadline and at a hard close are write errors.
- Delivery.FrameReadBack: the reader trims ASCII white space only and its sum of sizes is not cut to 64 bits.
- Conversation.ConversationRead: for a limit of at least one byte a line; `Cuts.CutInvariance` says what cuts do under a limit of none.
- Subscriber.MessageReceived: the repository's test client leaves it to each test to take a control line apart; the reader here goes by the places of its fields.
- Dispatch.ActsOnPrefix: what an operation does when it is acted on, and whether that ends the connection, is left open.
- Ceiling.MemoryCeiling: frames refused at the hard mark are not laid down in it, where the code builds them first and drops them at once; their connection is closed next.
- Frames.BuildFrame: a chunk is an array that nobody frees; that it is freed with its last view is taken from the reference count, and `Retention` counts on it.
