# A Dafny model of up-redis

up-redis puts an HTTP front, compatible with the Upstash SDK, before a plain Redis server. This project models its four
hard cores and proves what they are for. `dafny verify dfyconfig.toml` checks everything; the files do not depend on any
library.

* **Pattern subscriptions** (`src/redis-pattern.ts`). `Resp` says what the parser reads from a byte buffer,
  `RespParsing` is the class itself (its buffer, its loops, its two mutually recursive readers), proved equal to it.
  `RespStream` is about any cutting of a stream into chunks; `RespWire` is the protocol's own notation and the round
  trips. `PatternProtocol` is the connection as a state and steps, `PatternConnection` the class, `PatternSetup` the
  setup with its connect race and its catch, under every interleaving with socket callbacks and timers.
  `PatternStream` and `PatternHandshake` join them: bytes in, calls of `onMessage` out.
* **Subscription life and delivery** (`src/routes/pubsub.ts`, `src/util/slot-limiter.ts`). `Subscriptions` has the slots,
  the registry and shutdown as interleaved steps of any number of handlers, `SubscriptionServers` the imperative code of
  each step. `Delivery` and `MessagePaths` do the same for the confirmation-ordered buffer and the bounded writer.
* **Translation** (`src/translate/*`). `Json` reads JSON; `JsonGrammar` has the grammar of RFC 8259 as a relation of its
  own and proves that the reader accepts exactly it; `JsonWriting` writes any value in any layout. `Payload` and `Events` take a published message through
  `normalizeMessagePayload`, the comma-separated event and the SSE lines to the client's `JSON.parse`; `Subscriber`
  joins that to the delivery order for exact subscriptions, `PatternSubscriber` for pattern subscriptions. `Replies`, `ScorePairs`, `Base64` and `Encoding` cover normalization, pair
  flattening and base64 mode. `Routes` compares the three command routes.
* **Transactions, the command gate, metrics** (`src/routes/multi-exec.ts`, `src/commands.ts`, `src/metrics.ts`):
  `Transactions`, `Commands`, `Metrics`.

## Conventions

A thrown JavaScript error is a `Result` or a result constructor. Texts on the Redis side are their UTF-8 bytes, texts on
the JSON and SSE side UTF-16 code units. JavaScript's `Number(text)` is an unspecified function parameter; the round
trips ask of it only that it reads back decimal integers (`ReadsDecimals`), and chunk invariance asks nothing. Sockets, `Bun.connect`,
the Redis server, timers, the HTTP client and the signal handler are steps that may come at any moment at which the
source lets them. `onMessage` is taken not to throw and `emit` not to call back into `push`.

## How the results are tied to the code

A step function and the method that takes the step could be wrong together, so the main results do not speak of them.
They are stated over the events of a run (`Delivery.RunsTellTheirEvents`, `Transactions.TranscriptsFollowAcknowledgements`,
`PatternProtocol.EverySettlementHasItsCause`, `Subscriptions.MarksTellHistory`), over an independent notation
(`RespWire.Serialize`, `JsonGrammar.Spells`, the option grammar of `Commands`), or over what is observed at the far end
(`Subscriber`, `PatternSubscriber`, `Encoding.Decode`).

## Where the code falls short, exactly

Each of these has its condition proved for all inputs and a lemma with an input on which it happens.

* **A client that leaves early is not missed.** An exact handler registers its abort callback only after
  `createDedicatedConnection()` (`pubsub.ts:135-172`), so a client that leaves before that goes unnoticed: the handler
  keeps its slot and its connection until Redis drops it or shutdown comes. `UnnoticedDepartures` says that this
  happens if and only if the client left while the connection was being opened and nothing came to the handler's
  notice since; `EarlyDepartureKeepsItsSlot` is such a run. A pattern handler notices.
* **A pipeline fails as a whole on a deep reply.** `pipeline.ts` does not catch `normalizeResp3`: `Routes.Pipeline`
  answers if and only if no reply is more than 64 levels deep (`PipelineIsSilentOnDeepReplies`), while the other two
  routes turn that one reply into an error; `DeepReplyPartsTheRoutes` has a good reply lost with the deep one.
* **Messages behind a server error are still delivered**, because `handleData` does not look at `closed`.
  `FramesBehindAnError` says that delivery stops at the close if and only if no well-formed pmessage follows the error,
  and `MessageBehindAnErrorIsDelivered` has a stream where one does.
* **`flattenScorePairs` twice is not always once.** `FlatteningTwice` has the condition, `PairsOfPairsFlattenTwice` a
  reply on which it differs.

Two more points to read the results by. `redis-pattern.ts:270-274` argues that a waiting reply is never a push message;
the code does not check it, so the faithful-delivery results assume a server that answers in order and pushes nothing
before the confirmation (`Polite`, `ArrivesBefore`), while the bookkeeping holds for every server
(`EveryRunIsDisciplined`, `NoTransportLeaks`). And a push that throws loses the values it had already read and leaves the
buffer as it is, so the stream stays broken (`MalformedStreamsKeepThrowing`) and what was delivered is exactly what the
earlier chunks hold (`MalformedStreamsDeliverAPrefix`).

## Model

| member | source | states |
|---|---|---|
| `Resp.Parse` | src/redis-pattern.ts:65-149 | a value read takes at least 3 bytes and ends within the buffer; the recursion ends by depth left and elements left |
| `Resp.FindCrlf` | src/redis-pattern.ts:97-104 | the line end found is the first CR LF of the buffer, and none is found only if there is none |
| `Resp.ParseExtends` | src/redis-pattern.ts:65-149 | once the parser has a value or an error, no later byte changes it |
| `Resp.ItemsExtend` | src/redis-pattern.ts:129-149 | the same for the elements of an array |
| `Resp.ComplaintsAreAboutUnknownPrefixes` | src/redis-pattern.ts:75-94 | a prefix complained about, at whatever depth of nesting, is none of the eight known ones |
| `Resp.ProperPrefixIsIncomplete` | src/redis-pattern.ts:65-149 | before the last byte of a value every prefix reads as incomplete |
| `Resp.ParsedTreeIsBounded` | src/redis-pattern.ts:31-40 | a parsed tree has at most one node per 3 bytes consumed and stays within the depth cap, whatever lengths were declared |
| `Resp.ParsedItemsAreBounded` | src/redis-pattern.ts:129-149 | the same for a row of elements |
| `RespParsing.RespParser.Push` | src/redis-pattern.ts:45-63 | result and new buffer are those of draining the old buffer and the chunk; on an error nothing is delivered and the buffer keeps everything |
| `RespParsing.RespParser.ParseAt` | src/redis-pattern.ts:65-95 | reads at an offset what `Parse` reads at the front of the rest of the buffer |
| `RespParsing.RespParser.ParseBulkString` | src/redis-pattern.ts:106-127 | null, refusal, waiting or the exact bytes, as the declared length decides |
| `RespParsing.RespParser.ParseArray` | src/redis-pattern.ts:129-149 | the loop yields the elements in order, or the first incomplete or broken element's outcome |
| `RespStream.RespReaderIsIncremental` | src/redis-pattern.ts:65-149 | the parser meets the two facts that chunk invariance rests on |
| `RespStream.DrainSplits` | src/redis-pattern.ts:51-60 | draining two pieces is draining the first and then the unread rest with the second |
| `RespStream.BrokenStaysBroken` | src/redis-pattern.ts:51-60 | bytes after an error change nothing |
| `RespStream.DrainedLeavesNothing` | src/redis-pattern.ts:51-60 | no complete value is left unread |
| `RespStream.FeedTracks` | src/redis-pattern.ts:45-63 | for every cutting: buffer, delivered values and the first throwing push, in terms of the whole stream |
| `RespStream.ChunkingIsInvisible` | src/redis-pattern.ts:45-63 | on a well-formed stream no push throws and all pushes together equal one push of everything, buffer included |
| `RespStream.MalformedStreamsKeepThrowing` | src/redis-pattern.ts:45-63 | from the offending chunk on every push throws the stream's error, and none before it does |
| `RespStream.MalformedStreamsDeliverAPrefix` | src/redis-pattern.ts:45-63 | what was delivered is what the chunks before hold, a prefix of the one-shot parse |
| `RespStream.ChunkingIsInvisibleToResp` | src/redis-pattern.ts:45-63 | the same, said of this parser |
| `RespStream.ThrowsIffBroken` | src/redis-pattern.ts:45-63 | some push throws if and only if the stream is malformed |
| `RespStream.ThrowingIsAboutTheBytes` | src/redis-pattern.ts:45-63 | one cutting throws if and only if every other cutting of the same bytes does |
| `RespWire.FrameIsReadBack` | src/redis-pattern.ts:65-149 | every frame within the caps, followed by anything, is read as its value and exactly its length |
| `RespWire.FramesAreReadBack` | src/redis-pattern.ts:129-149 | so are rows of frames |
| `RespWire.UnfinishedFramesWait` | src/redis-pattern.ts:65-149 | a frame cut short is neither a value nor an error |
| `RespWire.OnlyTIsTrue` | src/redis-pattern.ts:84-85 | a boolean line is true for the text t alone |
| `RespWire.FramesDrain` | src/redis-pattern.ts:45-63 | a stream of frames is read as their values with nothing left over |
| `RespWire.FramesSurviveAnyCutting` | src/redis-pattern.ts:45-63 | frames reach the caller one by one and in order, however the stream is cut |
| `RespWire.EncodeRespCommand` | src/redis-pattern.ts:352-358 | the loop writes the array of bulk strings of the parts |
| `RespWire.CommandsAreReadBack` | src/redis-pattern.ts:352-358 | a command is read back as its parts, CR LF inside a part included, and no proper prefix is taken for one |
| `RespWire.OversizedBulksAreRefusedAtDeclaration` | src/redis-pattern.ts:36-40 | a bulk over the cap is refused on its length line, whatever follows |
| `RespWire.NegativeLengthsAreRefused` | src/redis-pattern.ts:106-137 | lengths below -1 are refused for bulks and arrays |
| `RespWire.UnknownPrefixesAreRefused` | src/redis-pattern.ts:75-94 | for every prefix: a line is refused for it if and only if it is none of the eight known ones |
| `RespWire.UnterminatedBulksAreRefused` | src/redis-pattern.ts:116-121 | bulk bytes not followed by CR LF are refused |
| `RespWire.DeepNestingIsRefused` | src/redis-pattern.ts:66-69 | the first byte beyond 64 arrays is refused; the headers alone only wait |
| `PatternProtocol.StepKeepsDiscipline` | src/redis-pattern.ts:243-326 | every step keeps each command in exactly one place: queued, in send order with its timer, or settled once |
| `PatternProtocol.EveryRunIsDisciplined` | src/redis-pattern.ts:243-326 | so in every state of every run of replies, failed writes, timeouts and closes |
| `PatternProtocol.CloseIsFinal` | src/redis-pattern.ts:310-326 | closing rejects every waiting command, leaves none unsettled, stops every timer, tears the transport down, and closing again changes nothing |
| `PatternProtocol.ValuesAnswerInOrder` | src/redis-pattern.ts:269-281 | the j-th value answers the command waiting j-th longest, an error rejecting it; the rest go on waiting |
| `PatternProtocol.SettlementsHaveCauses` | src/redis-pattern.ts:243-326 | what a step settles has its cause: a reply only from a value that came while the command waited, each failure from its own event |
| `PatternProtocol.EverySettlementHasItsCause` | src/redis-pattern.ts:243-326 | so in every run |
| `PatternProtocol.BefallenAreRejected` | src/redis-pattern.ts:243-326 | a command waiting at a close or a parser error, timed out, not written or issued without a connection is rejected in that very step |
| `PatternProtocol.BefallenStayRejected` | src/redis-pattern.ts:243-326 | and no later state of any run has a reply for it |
| `PatternProtocol.PoliteConversationsAreFaithful` | src/redis-pattern.ts:267-297 | with a server that answers in order, reply k settles command k and every well-formed pmessage is delivered in order |
| `PatternConnection.RawPatternConnection.SendCommand` | src/redis-pattern.ts:243-265 | refused at once when closed or without transport, else queued with a timer, and settled again at once if the write fails |
| `PatternConnection.RawPatternConnection.TimerFires` | src/redis-pattern.ts:252-256 | only the timed-out command leaves the queue, rejected |
| `PatternConnection.RawPatternConnection.ResolvePending` | src/redis-pattern.ts:299-308 | only the given command leaves the queue, its timer stopped |
| `PatternConnection.RawPatternConnection.HandleClose` | src/redis-pattern.ts:310-326 | the loop takes the step of `CloseIsFinal`: the waiting commands are rejected in order and their timers stopped, once only |
| `PatternConnection.RawPatternConnection.HandlePushMessage` | src/redis-pattern.ts:287-297 | an error closes, a well-formed pmessage is delivered, anything else is ignored |
| `PatternConnection.RawPatternConnection.HandleData` | src/redis-pattern.ts:267-285 | each value goes to the oldest waiting command, else to the push handler; a parser error closes |
| `PatternSetup.StepKeepsAccounts` | src/redis-pattern.ts:168-224 | every step of setup, socket and timers keeps every socket accounted for and at most one command outstanding |
| `PatternSetup.EveryRunIsAccounted` | src/redis-pattern.ts:329-350 | so in every state of every run |
| `PatternSetup.NoTransportLeaks` | src/redis-pattern.ts:329-350 | after a rejected setup or any close of a live subscription every socket ever obtained is torn down, late ones included, and nothing waits |
| `PatternSetup.ClosedSetupsHoldNothing` | src/redis-pattern.ts:310-350 | in mid-setup too, a closed connection means every socket obtained is torn down, but for one just attached to it |
| `PatternSetup.DeadSetupsFail` | src/redis-pattern.ts:202-246 | and that one: nothing is sent on it, the next command is rejected, the rejection reaches the catch, and the catch tears it down |
| `PatternSetup.SetupIsSingleFlight` | src/redis-pattern.ts:268-275 | at most one command is outstanding, and only while the setup awaits it |
| `PatternSetup.SetupsNeverHang` | src/redis-pattern.ts:194-265 | until it is live or rejected a setup has its next step enabled or a timer running that will enable it |
| `PatternSetup.SetupsFollowTheScript` | src/redis-pattern.ts:208-236 | in every run the exchanges sent are the first of AUTH if there is a password, SELECT if there is a database, PSUBSCRIBE; a live setup has sent all, each answered with an agreeing answer, and has the count confirmed |
| `PatternSetup.RepliesComeFromTheServer` | src/redis-pattern.ts:267-308 | what answers a command of a setup is a value that arrived while it waited |
| `PatternSetup.OnlyAgreementGoesOn` | src/redis-pattern.ts:208-236 | a setup goes on from an exchange only if the server sent an agreeing reply |
| `PatternStream.OnDataSplits` | src/redis-pattern.ts:267-285 | in any connection state, two chunks have the effect of their concatenation |
| `PatternStream.CuttingIsInvisible` | src/redis-pattern.ts:267-285 | so the whole connection state after a well-formed stream does not depend on its cutting |
| `PatternStream.ReplySettlesItsCommand` | src/redis-pattern.ts:243-285 | a reply, error replies included and cut at will, settles the one outstanding command and leaves the connection idle and open |
| `PatternStream.ReplyThenTraffic` | src/redis-pattern.ts:267-285 | a reply with more of the stream behind it, cut anywhere, settles its command, and the rest has the effect it has on an idle connection |
| `PatternStream.ChunksAreTaken` | src/redis-pattern.ts:267-297 | for every byte stream the messages delivered are those of the values parsed, and the connection is closed if and only if a push threw or an error came |
| `PatternStream.FramesAreHandedOn` | src/redis-pattern.ts:287-297 | a server's frames are handed on whole and in order, and only an error among them closes |
| `PatternStream.SilenceAfterAnError` | src/redis-pattern.ts:267-297 | the first error closes the connection, and delivery stops there if and only if no well-formed message follows |
| `PatternStream.FramesBehindAnError` | src/redis-pattern.ts:267-297 | the same for a server's frames in any cutting |
| `PatternStream.MessageBehindAnErrorIsDelivered` | src/redis-pattern.ts:267-297 | a stream where a message is delivered after the close |
| `PatternStream.PayloadsAreRead` | src/redis-pattern.ts:293-296 | a pmessage with any payload frame: text as it is, null as the empty text, anything else through String |
| `PatternStream.PublishedMessagesReachTheSubscriber` | src/redis-pattern.ts:287-297 | each message published is one call of onMessage with its channel and payload, in order, in any cutting |
| `PatternHandshake.ExchangeCompletes` | src/redis-pattern.ts:208-236 | one exchange, whatever the answer and its cutting, leads where that answer decides and leaves the connection idle |
| `PatternHandshake.ExchangeWithTraffic` | src/redis-pattern.ts:226-285 | the same when the server goes on sending: further frames may be in the reply's chunk, whole or in part, and the handler may resume at any time after the reply is complete |
| `PatternHandshake.AnswersDecide` | src/redis-pattern.ts:208-236 | an exchange fails if and only if the answer is not OK, or not a psubscribe confirmation with a positive count |
| `PatternHandshake.AgreeingServersLeadToPsubscribe` | src/redis-pattern.ts:208-224 | a server that agrees to AUTH and SELECT, as far as they apply, brings the setup to PSUBSCRIBE with nothing outstanding |
| `PatternHandshake.AgreeingServersMakeItLive` | src/redis-pattern.ts:329-350 | and one that confirms takes it live, with the confirmed count, on the transport it started with |
| `PatternHandshake.CredentialsAreKept` | src/redis-pattern.ts:208-213 | leaving out an empty or default user changes nothing in the credentials Redis takes from AUTH |
| `PatternHandshake.ServersReadTheScript` | src/redis-pattern.ts:208-236 | a server that reads the bytes of a live setup finds exactly the commands the target calls for, with their words |
| `PatternHandshake.SubscribersHearWhatIsPublished` | src/redis-pattern.ts:329-350 | from connecting to the last message, with a server that agrees to the exchanges the target calls for: onMessage is called with exactly what is published, in order, messages in the confirmation's own chunk included |
| `SlotLimiting.SlotLimiter.Reserve` | src/util/slot-limiter.ts:22-26 | a slot is granted if and only if one is free, and counted in the same step |
| `SlotLimiting.SlotLimiter.Release` | src/util/slot-limiter.ts:27-29 | one slot is given back, never below zero |
| `Subscriptions.StepKeeps` | src/routes/pubsub.ts:104-386 | every step of every handler and of shutdown keeps slots, registry and connections in agreement |
| `Subscriptions.RunsAreWellKept` | src/routes/pubsub.ts:104-386 | so in every state of every interleaving |
| `Subscriptions.SlotsAreConserved` | src/routes/pubsub.ts:33-40 | the count is the handlers that reserved and have not exited, each releases exactly once, and registry <= count <= maximum |
| `Subscriptions.RequestsAreAdmitted` | src/routes/pubsub.ts:104-127 | in every run a request gets a slot if and only if its target is valid, shutdown has not begun and fewer than the maximum are held; any other is refused and changes nothing |
| `Subscriptions.OpeningsAreKept` | src/routes/pubsub.ts:339-350 | an opened connection is kept and registered if and only if shutdown has not begun and it is not a pattern subscription whose client has left; otherwise it is closed and the slot returned |
| `Subscriptions.AwaitsDecide` | src/routes/pubsub.ts:196-254 | a failing await ends the handler with slot, registration and connection given back; a succeeding one keeps all three |
| `Subscriptions.SlotsMoveOnlyThen` | src/util/slot-limiter.ts:10-11 | no other event gives or takes a slot |
| `Subscriptions.OthersAreLeftAlone` | src/routes/pubsub.ts:242-254 | no step but the sweep touches another handler or its registration |
| `Subscriptions.ShutdownLeavesNothingOpen` | src/routes/pubsub.ts:414-435 | after the sweep, at every later moment, nothing is registered and an open connection belongs to a handler still in setup, whose next step with it closes it and returns the slot |
| `Subscriptions.ShutdownAdmitsNobody` | src/routes/pubsub.ts:111-164 | once the flag is set no step registers or takes a slot; a connection that opens is closed and its slot returned in the same step |
| `Subscriptions.EndedListenersFinish` | src/routes/pubsub.ts:240-254 | a listener that noticed the end of its client or connection can leave, giving back slot, registration and connection and touching no other handler |
| `Subscriptions.MarksTellHistory` | src/routes/pubsub.ts:168-177 | a handler has noticed an end if and only if an abort, drop or sweep came while it was listening for it |
| `Subscriptions.UnnoticedDepartures` | src/routes/pubsub.ts:129-177 | a client's departure goes unnoticed if and only if the handler is exact, the client left while the connection was being opened, and no noticed end followed; until one does the slot is kept |
| `Subscriptions.EarlyDepartureKeepsItsSlot` | src/routes/pubsub.ts:129-177 | a run in which it happens |
| `SubscriptionServers.SubscriptionServer.HandleRequest` | src/routes/pubsub.ts:104-127 | takes the step of `RequestsAreAdmitted`: validity, shutdown and the limiter, in this order, before any await |
| `SubscriptionServers.SubscriptionServer.Leave` | src/routes/pubsub.ts:242-254 | the way out unregisters, releases and closes |
| `SubscriptionServers.SubscriptionServer.ConnectionFailed` | src/routes/pubsub.ts:136-147 | a failed connection gives the slot back |
| `SubscriptionServers.SubscriptionServer.ConnectionOpened` | src/routes/pubsub.ts:339-350 | registers, and leaves at once if shutdown, or a pattern client's departure, came meanwhile |
| `SubscriptionServers.SubscriptionServer.ClientLeft` | src/routes/pubsub.ts:168-172 | the departure is noticed only where the abort callback is in place |
| `SubscriptionServers.SubscriptionServer.ConnectionDropped` | src/routes/pubsub.ts:174-177 | so is the end of the connection |
| `SubscriptionServers.SubscriptionServer.SubscribeSettled` | src/routes/pubsub.ts:198-208 | on with the confirmation, or out |
| `SubscriptionServers.SubscriptionServer.ConfirmationSettled` | src/routes/pubsub.ts:210-218 | on with listening, or out |
| `SubscriptionServers.SubscriptionServer.ListeningEnded` | src/routes/pubsub.ts:240-254 | the end of the wait is the way out |
| `SubscriptionServers.SubscriptionServer.CloseAllSubscriptions` | src/routes/pubsub.ts:415-435 | the loop over the snapshot empties the registry and closes exactly the registered connections |
| `Delivery.StepKeeps` | src/routes/pubsub.ts:66-93 | arrivals, confirmation, settling writes and disconnects keep count, order and confirmation-first |
| `Delivery.RunsAreKept` | src/routes/pubsub.ts:66-93 | so at every moment of every run |
| `Delivery.DeliveryIsOrderedAndBounded` | src/translate/pubsub.ts:44-76 | for both kinds: the confirmation is the first event of all, unless a lone error for an unsupported channel replaces it; written messages are a prefix of the accepted ones, all behind the confirmation; unsettled writes are counted exactly and at most 1024; onStuck is called at most once |
| `Delivery.AcceptedWereSupported` | src/routes/pubsub.ts:301-318 | a message is accepted only if it came on a channel an event can name |
| `Delivery.RunsTellTheirEvents` | src/routes/pubsub.ts:66-93 | every variable is what the events made it: accepted is what arrived while the flow went on, the flow stops only for a departure, an unnameable channel or the writer giving up, and the first unnameable channel is reported |
| `Delivery.NothingIsLost` | src/translate/pubsub.ts:44-76 | what is written is at every moment a prefix of the arrivals, those before the confirmation included, and all of them once the confirmation is out, unless the writer gave up |
| `Delivery.StuckIsSilent` | src/routes/pubsub.ts:72-73 | a writer that gave up writes nothing more and does not report again |
| `Delivery.FlushGivesUp` | src/translate/pubsub.ts:69-74 | the flush at the release gives up if and only if more than 1024 messages waited |
| `Delivery.GivingUpHasACause` | src/routes/pubsub.ts:74-90 | for every event: the writer gives up if and only if a message, or the messages waiting at the release, find the bound reached, or a write fails |
| `MessagePaths.MessagePath.BoundedWrite` | src/routes/pubsub.ts:72-91 | written and counted below the bound, otherwise dropped, giving up once |
| `MessagePaths.MessagePath.OnStuck` | src/routes/pubsub.ts:182-187 | marks the subscription disconnected |
| `MessagePaths.MessagePath.WriteSettled` | src/routes/pubsub.ts:80-91 | the count goes down either way, and the first failure gives up |
| `MessagePaths.MessagePath.Receive` | src/routes/pubsub.ts:301-325 | takes the step `RunsTellTheirEvents` is about: nothing after a disconnect, the error for an unnameable channel, else queued before the confirmation and written after it |
| `MessagePaths.MessagePath.Release` | src/translate/pubsub.ts:69-74 | the loop writes what waited, in order, with nothing left waiting |
| `Json.ValuesAreSeparated` | src/translate/pubsub.ts:35-42 | in a JSON text no two scalar tokens are neighbours |
| `JsonGrammar.ParsesExactlyTheGrammar` | src/translate/pubsub.ts:36-38 | a text is parsed to a value if and only if the grammar of RFC 8259, white space, numbers, escapes and all, spells that value with it |
| `JsonGrammar.SpelledTokensAreRead` | src/translate/pubsub.ts:36-38 | every spelling of a token sequence without neighbouring scalars is read as it |
| `JsonGrammar.ReadTokensAreSpelled` | src/translate/pubsub.ts:36-38 | and whatever is read is spelled so |
| `JsonWriting.WrittenIsParsed` | src/translate/pubsub.ts:36-38 | every value, with any white space around its tokens and any spelling of its strings, is parsed back |
| `JsonWriting.JsonIsPublishedAsItIs` | src/translate/pubsub.ts:28-39 | and published as the same text without the line breaks of its layout |
| `JsonWriting.StripsLineBreaksOnly` | src/translate/pubsub.ts:38 | stripping takes out CR and LF and nothing else |
| `JsonWriting.NormalizingFollowsTheGrammar` | src/translate/pubsub.ts:35-42 | a message in the grammar goes out stripped and means its value; any other goes out quoted and means itself |
| `Payload.StrippingKeepsTokens` | src/translate/pubsub.ts:35-42 | taking out CR and LF neither joins two tokens nor splits one |
| `Payload.StrippingKeepsMeaning` | src/translate/pubsub.ts:35-42 | a JSON text without its line breaks has the same value |
| `Payload.QuotedTextsParse` | src/translate/pubsub.ts:40-41 | a quoted text parses back to exactly that text, lone surrogates included |
| `Payload.QuotedTextsAreWellFormed` | src/translate/pubsub.ts:40-41 | a quoted text has no lone surrogate, whatever the message, so it survives UTF-8 |
| `Payload.PayloadKeepsMeaning` | src/translate/pubsub.ts:25-42 | every payload is one line of valid JSON and means the message: its value if it was JSON, else the exact string |
| `Events.HasControlCharacters` | src/routes/pubsub.ts:95-102 | true if and only if some unit is a control character |
| `Events.IsValidSubscriptionTarget` | src/routes/pubsub.ts:442-449 | true if and only if the name is non-empty, short enough and free of commas and control characters |
| `Events.MessageEventIsReadBack` | src/translate/pubsub.ts:12-14 | one line, and its first two commas give back kind, channel and payload, for every payload |
| `Events.PatternMessageEventIsReadBack` | src/translate/pubsub.ts:17-23 | one line, and its first three commas give back kind, pattern, channel and payload |
| `Events.ConfirmationsAreReadBack` | src/translate/pubsub.ts:1-9 | confirmations are one line and give back kind, target and count |
| `Events.UnsupportedEventIsReadBack` | src/routes/pubsub.ts:310-315 | the error event is one line and gives back its kind and notice |
| `Events.MessageEventsAreUnambiguous` | src/translate/pubsub.ts:12-14 | equal events carry the same channel and the same meaning |
| `Events.StreamIsReadBack` | src/routes/pubsub.ts:222-238 | a client's event loop recovers exactly the events written, keep-alive comments aside |
| `Events.SubscribersSeeWhatWasPublished` | src/translate/pubsub.ts:1-42 | from the SSE bytes a client recovers the confirmation and then channel and meaning of each message |
| `Subscriber.ExactLogIsATranscript` | src/routes/pubsub.ts:192-218 | what an exact subscription writes is a confirmation followed by its messages |
| `Subscriber.KeepAlivesAreInvisible` | src/routes/pubsub.ts:222-238 | keep-alives between the events do not change what the client reads |
| `Subscriber.ClientsReadWhatWasAccepted` | src/routes/pubsub.ts:179-218 | at every moment of every run the client has read the confirmation and the meanings of the first messages that arrived; of all of them once the confirmation is out, unless the writer gave up |
| `PatternSubscriber.EventIsRead` | src/translate/pubsub.ts:6-23 | each event of a pattern subscription is one line and is read as what it was written for |
| `PatternSubscriber.ClientsReadWhatWasAccepted` | src/routes/pubsub.ts:301-360 | at every moment of every run the client has read the confirmation and then pattern, channel and meaning of the first messages that arrived, all of them unless the writer gave up, and one complaint if and only if a channel came that cannot be named; or the complaint alone |
| `Replies.NormalizeResp3` | src/translate/response.ts:18-77 | the method with its branches computes the specified normalization |
| `Replies.NormalizeElements` | src/translate/response.ts:36-64 | elements in order, or the first failure |
| `Replies.FlattenEntries` | src/translate/response.ts:54-73 | the loop over the entries, or the first failure |
| `Replies.ThrowsExactlyWhenTooDeep` | src/translate/response.ts:18-21 | throws if and only if some value lies more than 64 levels down |
| `Replies.NormalizingIsCanonical` | src/translate/response.ts:1-15 | yields only null, finite numbers, strings and lists, and is idempotent |
| `Replies.MapsAlternate` | src/translate/response.ts:54-73 | entry i stands at positions 2i and 2i + 1, key then normalized value |
| `Replies.MapRepliesAlternate` | src/translate/response.ts:54-73 | a map reply of either kind is the list of its keys and normalized values in turn, in entry order |
| `Replies.CollectionsKeepTheirElements` | src/translate/response.ts:36-64 | a list or set reply keeps its length and normalizes each element in its place |
| `Replies.ScalarsBecomeResp2` | src/translate/response.ts:22-52 | booleans as 1 and 0, binary data as its text, absent values as null, infinities and NaN as Redis writes them |
| `Replies.NumbersSurvive` | src/translate/response.ts:24-34 | numbers, infinite ones and NaN included, can be told from their normalized form; so can big integers |
| `ScorePairs.PairingUndoesConcatenation` | src/translate/score-pairs.ts:57-61 | re-pairing a flat reply gives the pairs back |
| `ScorePairs.FlatteningLosesNothing` | src/translate/score-pairs.ts:43-61 | a flattened reply can be re-paired, every other reply is untouched |
| `ScorePairs.FlatteningIsAskedFor` | src/translate/score-pairs.ts:18-55 | the tables and token search decide, in any letter case, whether the call asks for pairs |
| `ScorePairs.OtherRepliesAreLeftAlone` | src/translate/score-pairs.ts:13-15 | a reply that was not asked to come in pairs stays as it is |
| `ScorePairs.GeoposAndXrangeAreNotAskedFor` | src/translate/score-pairs.ts:13-15 | as do the nested replies of GEOPOS and XRANGE |
| `ScorePairs.FlatteningTwice` | src/translate/score-pairs.ts:43-61 | flattening again changes nothing if and only if the flat reply is empty or not again all pairs |
| `ScorePairs.PairsOfPairsFlattenTwice` | src/translate/score-pairs.ts:43-61 | a reply on which flattening again changes something |
| `ScorePairs.ScalarPairsFlattenOnce` | src/translate/score-pairs.ts:43-61 | so it is for pairs of scalars |
| `ScorePairs.FlattenedElements` | src/translate/score-pairs.ts:57-59 | pair j stands at positions 2j and 2j + 1 |
| `ScorePairs.FlatteningKeepsCanonical` | src/translate/score-pairs.ts:43-61 | flattening a normalized reply leaves it normalized |
| `Base64.EncodedIsDecoded` | src/translate/encoding.ts:28 | decoding undoes encoding for all bytes |
| `Base64.EncodedLengths` | src/translate/encoding.ts:28 | four symbols for every three bytes begun |
| `Base64.AlphabetIsStandard` | src/translate/encoding.ts:28 | the alphabet is that of section 4 of RFC 4648 |
| `Base64.TestVectors` | src/translate/encoding.ts:28 | the first vectors of section 10 come out |
| `Encoding.EncodedTextIsNeverOk` | src/translate/encoding.ts:6-12 | no base64 text is the literal OK |
| `Encoding.ValueIsRestored` | src/translate/encoding.ts:22-29 | at each depth parity the SDK decoder restores every normalized value of any nesting |
| `Encoding.OkStandsAtEvenDepths` | src/translate/encoding.ts:23-28 | unencoded "OK" appears exactly where the value is "OK" at an even depth; all other text is base64 |
| `Encoding.ElementsAreEncodedBelow` | src/translate/encoding.ts:29 | each element of a list is encoded for the depth below the list's |
| `Encoding.Base64IsInvisible` | src/translate/encoding.ts:4-15 | the client sees the same reply with base64 mode and without |
| `Encoding.UnencodedOkIsMangled` | src/translate/encoding.ts:6-12 | why odd depths must encode OK: left as it is, it reaches the client as "8" |
| `Encoding.DirectEncodingIsDecodable` | src/translate/encoding.ts:30-55 | booleans, big integers, binary data and undefined, encoded unnormalized, reach the client as if they had been normalized |
| `Commands.ParseCommandArray` | src/commands.ts:335-362 | accepts if and only if the name is a string and every argument a string, a boolean or a finite number; each argument becomes its text in its place; otherwise the first offender is named |
| `Commands.BlocksStreamRead` | src/commands.ts:292-303 | on every list the option grammar derives, the scan rejects if and only if there is a BLOCK option |
| `Commands.ScanFollowsTheGrammar` | src/commands.ts:292-303 | the same for the scan as a function, with groups, consumers and counts named like keywords |
| `Commands.DerivationIsUnique` | src/commands.ts:292-303 | a list has one reading, so "a BLOCK option" is well defined |
| `Commands.UpperForgetsCaseOnly` | src/commands.ts:297 | upper-casing identifies exactly the texts that differ only in the case of ASCII letters, so options are seen in any case |
| `Routes.ExecuteCommand` | src/routes/command.ts:12-34 | blocked commands are answered with the reason, others with the shaped reply or the error |
| `Routes.BothModesAgree` | src/routes/command.ts:19-24 | the SDK ends up with the same result in both encodings |
| `Routes.RepliesAreShaped` | src/routes/command.ts:19-24 | the client gets the normalized reply, flat where pairs were asked for |
| `Routes.AnswersTell` | src/routes/command.ts:18-33 | Redis errors are passed on, replies too deep are errors, all others decode to the shaped reply |
| `Routes.Dispatch` | src/routes/pipeline.ts:43-67 | the commands sent are the valid unblocked ones in body order, and both lists have the body's length whatever is invalid |
| `Routes.EntriesSendInTurn` | src/routes/pipeline.ts:49-67 | an entry sends its command if and only if it parses and is not blocked, behind those of the entries before it |
| `Routes.NothingBlockedIsSent` | src/routes/pipeline.ts:62-65 | no blocked command is sent |
| `Routes.SlotsTell` | src/routes/pipeline.ts:71-81 | each slot tells what is wrong with its entry, why it is blocked, or the answer to its own command |
| `Routes.Pipeline` | src/routes/pipeline.ts:43-83 | answers if and only if no reply is too deep; slot i is what the single-command route gives for entry i and its own reply |
| `Routes.PipelineIsSilentOnDeepReplies` | src/routes/pipeline.ts:71-79 | the pipeline fails to answer if and only if some reply has a value more than 64 levels down |
| `Routes.DeepReplyPartsTheRoutes` | src/routes/pipeline.ts:71-79 | two commands whose pipeline fails as a whole while the other routes lose only the deep reply |
| `Routes.ShapeExecResults` | src/translate/transaction.ts:23-55 | an array reply of any length gives one slot per element, each as on the single-command route; elements beyond the commands are not flattened; anything else is an error |
| `Routes.AllAreSent` | src/routes/multi-exec.ts:51-69 | a wholly valid body sends one command per entry, in order |
| `Routes.RoutesAgree` | src/translate/transaction.ts:20-22 | the same replies give the same slots on all three routes, in both encodings |
| `Transactions.Validate` | src/routes/multi-exec.ts:38-69 | accepts if and only if the body fits and every entry may be sent, and otherwise reports the first offender |
| `Transactions.Exchange` | src/routes/multi-exec.ts:78-96 | the words sent are the script up to and including the first that is not acknowledged |
| `Transactions.Execute` | src/routes/multi-exec.ts:76-110 | the connection is closed however it ends, and EXEC was sent only if every word before it was acknowledged |
| `Transactions.StepKeepsIsolation` | src/routes/multi-exec.ts:47-110 | every step of every request keeps each connection with its one request and its script |
| `Transactions.RunsAreIsolated` | src/routes/multi-exec.ts:47-110 | so in every interleaving |
| `Transactions.TransactionsAreIsolated` | src/routes/multi-exec.ts:73-110 | each connection carries a prefix of MULTI, c1 .. cn, EXEC of one valid request, written by it alone, and is closed when its handler has ended |
| `Transactions.RequestsAreAdmitted` | src/routes/multi-exec.ts:30-69 | a connection is asked for if and only if the body is non-empty, within the cap, and every entry parses and is not blocked |
| `Transactions.FailedOpeningsEnd` | src/routes/multi-exec.ts:76 | a connection that cannot be opened ends the request and nothing else |
| `Transactions.TranscriptsFollowAcknowledgements` | src/routes/multi-exec.ts:78-110 | after k acknowledgements a connection carries exactly the first k + 1 words of its script; its handler has ended if and only if it failed or every word, EXEC last, was acknowledged |
| `Metrics.NormalizeMethod` | src/metrics.ts:15-20 | one of eight labels; OTHER if and only if the method is not a known one |
| `Metrics.StatusesAreSpelled` | src/metrics.ts:22-34 | the label spells the status if that is an integer from 100 to 599, and is "0" if and only if not, NaN and infinities included |
| `Metrics.StatusLabelsDiffer` | src/metrics.ts:31-34 | the 501 labels are distinct |
| `Metrics.KeysSplit` | src/metrics.ts:63-91 | a counter key is split back into its method and status |
| `Metrics.MetricsRegistry.GetHistogram` | src/metrics.ts:47-54 | the stored histogram, or a new empty one, stored |
| `Metrics.MetricsRegistry.RecordRequest` | src/metrics.ts:56-77 | the maps always are those of the history of requests |
| `Metrics.MetricsRegistry.FindBucket` | src/metrics.ts:71-76 | the loop stops at the first bucket that fits |
| `Metrics.MetricsRegistry.FormatBuckets` | src/metrics.ts:97-109 | the rendered running totals are the numbers of recorded durations at or below each bound; +Inf and sum are the method's requests and seconds |
| `Metrics.BucketsAccumulate` | src/metrics.ts:97-105 | cumulative bucket i counts the recorded durations at or below its bound |
| `Metrics.BucketsAreMonotone` | src/metrics.ts:97-108 | buckets only grow, up to the count |
| `Metrics.HistogramCountsRequests` | src/metrics.ts:68-70 | a method's count and sum are its requests and their seconds |
| `Metrics.CountersCountRequests` | src/metrics.ts:62-64 | a counter is the number of requests with its labels, and exists if and only if there was one |
| `Metrics.CountersSumToHistogram` | src/metrics.ts:62-70 | a method's counters sum to its histogram count |
| `Metrics.CountersAreBounded` | src/metrics.ts:6-34 | at most 8 x 501 counters exist, whatever methods and statuses are recorded |

## Left out

- HTTP routing, Hono's streaming, `Bun.connect`, `RedisClient` and TLS: foreign code, present only as steps that may come at any moment.
- Partial socket writes: a write succeeds whole or fails, as `sendCommand` itself assumes.
- PatternHandshake.ServersReadTheScript: the words of the commands are taken to be at most 64 MB each, which is what the server is asked to read back.
- UTF-8 decoding: Redis texts are their bytes, so the replacement of malformed bytes by U+FFFD, and the SDK's removal of a leading byte order mark, are not captured.
- JavaScript's `String` of a message that is neither text nor null: `Coerced` keeps the value instead, and `Missing` stands for the text of an absent one.
- `toUpperCase` beyond ASCII: the few non-ASCII letters whose upper case is an ASCII letter are kept as they are.
- The block lists, subcommand tables and operator configuration of `checkBlockedCommand`: table lookups, present as the parameter `Gate`; only the stream scan is modelled.
- Path-style commands (`parsePathCommand`), body and header parsing, authentication, environment and URL parsing (the user, password and database of a target are given), health checks, logging and request IDs: short branches without a property that spans functions.
- Keep-alive timers: keep-alive comments appear in `Events` and `Subscriber` at arbitrary places, their failed writes in `Delivery` as a disconnect.
- Subscriptions.EndedListenersFinish: says that an ended listener can finish, not that the event loop gets to it.
- PatternProtocol.EveryRunIsDisciplined: no silence after a close is claimed; `FramesBehindAnError` says when there is.
- PatternProtocol.PoliteConversationsAreFaithful: assumes an open connection and a server that answers in order with no push before its last reply, which the code relies on without checking.
- Delivery.DeliveryIsOrderedAndBounded: the error event for an unsupported channel bypasses the writer, so the bound does not count it; it is at most one.
- Routes.RoutesAgree: entries that are not arrays, or are empty, have a message of their own on each route, and a wrong entry refuses a whole transaction; agreement is about bodies of sendable commands. The texts of error messages are constructors.
- Transactions.Execute: the reply of EXEC itself is not part of the log; its shaping is `ShapeExecResults`.
- Dropped connections: an exact connection that Redis drops before `onclose` is registered is modelled as unnoticed; that `SUBSCRIBE` on it then fails is up to `RedisClient` and appears as `SubscribeSettles` of either outcome.
- Delays: a timeout is a step that may come at any moment after its timer started, not after a given time.
- Replies: `DataView`, symbols and functions are not among the values; keys of maps have already been through `String`.
- Metrics: the order of the lines and their fixed text; durations are reals, so a NaN duration is not covered, and sums are exact, without floating-point rounding.
- Numbers: integers and reals without the limit of 2^53 and without rounding. JSON numbers keep their spelling, which decides their value.
- Json: `JSON.parse` of duplicate keys keeps the list of members; which one wins is the client's affair and the same before and after stripping.
