# lazytg, proved in Dafny

A model of the parts of lazytg whose behaviour is hardest to see from the code,
with proofs. `dafny verify dfyconfig.toml` checks everything.

| files | what they model |
|---|---|
| `Entities`, `MarkdownParser`, `MarkdownScan`, `MarkdownRender`, `MarkdownNesting`, `MarkdownRoundTrip`, `MarkdownDialect` | the markup parser and printer, what the dialect takes and refuses, and exactly when the two undo each other, for texts and payloads that markup can hold |
| `WireEntities`, `MessageEdge` | spans between rune indices and UTF-16 code units (section 2.1 of RFC 2781), and a message's way out and back |
| `Session`, `Reconnect` | the session supervisor and the reconnect manager, as one state machine over mutex sections, channel operations, cancel calls and waits |
| `Dialogs`, `DialogSync`, `DialogPrune` | the paged dialog walk, the sync around it, and the prune |
| `SecretStore`, `SharedSecrets` | the encrypted secret file of one process, and of any number of processes |
| `TokenBucket`, `SendDelivery` | rate limiting and the delivery of one message |
| `Dedup`, `Polling`, `Unread` | the duplicate filter, the polling fallback, the unread counter behind both |
| `ReadReceipts` | the two goroutines that acknowledge what was read |
| `SearchTokens`, `SearchQuery`, `SearchRoundTrip`, `FtsMatch`, `SqlFilter`, `SearchSql` | the search box: tokens, query, FTS5 expression, and the SQL filter with what SQLite makes of its text |
| `FileNames`, `Downloads`, `Progress` | names of downloads, claiming and renaming them, progress events |
| `Basics`, `Sets` | what these share |

The code that changes things step by step is modelled by classes and loops that
are proved equal to specification functions; code that runs concurrently is
modelled by an `Apply` function, one action per atomic step, and the theorems
quantify over every sequence of actions. An action that is not possible changes
nothing, so "every sequence" is every interleaving. I/O outcomes (fetches,
writes, prompts, timers, answers of the sender) are parameters or actions.

## What the proofs say about the code

Most of what the repository promises holds as promised. In these places it does
not, or holds only under a condition; each has a lemma with the concrete run or
input, and the exact condition where there is one.

* Crossing spans do not parse back, although the comment at
  `internal/core/markdown/markdown.go:245-247` says they do:
  `CrossingSpansAreLost`. Given payloads and text that markup can hold
  (`Writable`), the round trip holds if and only if the spans are laminar
  (`RoundTripIffLaminar`).
* A fenced block with a language loses a newline its code starts with; it reads
  back if and only if it has no language or its code starts with something else
  (`FenceReadsBackIff`).
* At most one session is alive besides those whose teardown timed out
  (`OneLiveSession`). The supervisor forgets a session's handles before it waits,
  so after one timed-out wait a second session does start beside a live one
  (`TwoLiveSessions`).
* `Stop` may return while `Restart` holds a session's handles and has not called
  cancel yet (`StopReturnsTooEarly`). `StopReturns` says exactly when a session
  is left uncancelled: the restarting caller, or another `Stop` while no failed
  start tore the session down, took its handles and has yet to call cancel.
* The drain after a restart may throw away the signal of the new session, which
  may have died by then, although the comment at
  `internal/core/sync/reconnect.go:271-272` says that all it finds is older. It
  is `Ping`, as the same comment goes on, that then catches the death: a client whose run loop has returned is spent
  (`internal/tg/client.go:174-177`), so `Ping` fails over it. While that is so
  and no teardown times out, no reported death is lost, and a drained one leads
  to another attempt (`NoDeathLost`). Only a cap on the attempts breaks this, and
  the program sets none (`DeathLostAtTheCap`). `DeathKeptIff` and `DeathLostIff`
  say exactly when a death is lost whatever `Ping` answers; `DeathLostToAPing`, a
  run the client cannot produce, shows that the condition on `Ping` is needed.
* `HasMore` counts raw dialogs and the truncation test counts decoded chats, so a
  full page with a skipped entry and an undated last dialog ends the walk as
  complete, and the prune deletes listed chats (`BlindPageDeletes`); the same
  happens when nothing on a page of the archive decodes
  (`UndecodedArchiveDeletes`). `CompleteMissesIff` says exactly when a complete
  walk missed a chat, and `SyncRemovesIff` exactly which rows a sync removes, for
  any lists. A main list whose length is a multiple of the page size is
  never called complete (`GoodCompleteIff`).
* When the walk of the archive fails, the count `Sync` returns leaves out the rows
  it had written for the archive, although the comment at
  `internal/core/sync/dialogs.go:161-162` says it reflects what was persisted:
  `CountIsWrittenIff` says exactly when, `ArchiveFailureMiscounts` is such a sync.
* A FLOOD_WAIT spends one transient retry, unlike what
  `internal/core/sync/send.go:62-64` and `:233-236` suggest: `RetriesSpent` gives
  the number of retries left, `FloodsSpendTheBudget` a run with none.
* An acknowledgement waiting in the slot is displaced by the next one whether or
  not that one covers it, unlike what the comment at
  `internal/core/sync/read.go:257-264` says: the next one may be of another chat
  (`DisplacedByAnotherChat`) or of a lower id in the same chat
  (`HigherIdNeverReported`). It covers the displaced one if and only if the last
  chat opened between the two messages, if any was, is theirs, and the id did not
  fall (`DisplacedCoveredIff`); the highest id given for a chat is taken in the
  end if and only if one of its readings has no such break up to the
  acknowledgement taken for it (`HighestTakenIff`).
* A phrase ending in a backslash swallows its closing quote
  (`PhraseReadsBackIff`).
* A download overwrites a whole file exactly when another download's rename put
  one at its path after its exists-check and it is still there
  (`OverwritesExactlySplits`, `SplitOverwrites`), which can only happen before its
  exclusive create (`SplitsBetweenCheckAndCreate`). A name that ends in `.partial`,
  which `sanitizeName` lets through, may be the name of another download's claim:
  its rename then lands on that claim, and the other one's rename carries the
  file off (`ClaimNameCarriesAway`). When no download is in flight any more, all
  finished ones have their bytes if and only if no rename replaced anything
  (`FinishedFilesKeptIff`); if no name ends in `.partial`, no claim is ever
  replaced (`PlainNamesSpareClaims`).
* `sanitizeName` cuts dots and white space off the ends of a name, and flattens `..`
  to nothing, although its comment at `internal/core/files/store.go:197-202` says both
  become underscores: `SanitizedKeepsMiddle`. `SanitizedStaysIff` says which names it
  leaves alone.
* Where the file lock is a stub (`internal/core/config/flock_other.go:9-11`) two
  processes lose an update (`StubLockLosesAnUpdate`).

## Model

| member | source | states |
|---|---|---|
| Entities.SortEntitiesSorts | internal/core/domain/entities.go:136-143 | the result is ordered by offset, longer first, and has the same spans |
| Entities.SortEntitiesIsStable | internal/core/domain/entities.go:136-143 | spans of one extent keep their order |
| Entities.SortEntitiesKeepsSorted | internal/core/domain/entities.go:136-143 | a sorted list is left as it is |
| Entities.LaminarIsOrderFree | internal/core/domain/entities.go:136-143 | being in bounds and pairwise apart or nested does not depend on the order of the list |
| MarkdownParser.Parser.TryFence | internal/core/markdown/markdown.go:108-134 | the cursor, text and spans after a fence are those of the fence rule on the rest of the source, and untouched if it does not match |
| MarkdownParser.Parser.TryCode | internal/core/markdown/markdown.go:138-154 | the same for inline code, which holds no newline |
| MarkdownParser.Parser.TryLink | internal/core/markdown/markdown.go:158-188 | the same for a link, whose label is parsed by a nested parser |
| MarkdownParser.Parser.TryPair | internal/core/markdown/markdown.go:193-219 | the same for a paired marker, the first closer winning |
| MarkdownParser.Parser.Run | internal/core/markdown/markdown.go:67-75 | the cursor reaches the end, and text and spans grow by exactly what the recursive specification makes of the source |
| MarkdownParser.Parse | internal/core/markdown/markdown.go:44-58 | returns the specification's text and its spans sorted; without a marker rune the source itself and no spans |
| MarkdownParser.PlainParsesToItself | internal/core/markdown/markdown.go:44-58 | the shortcut for text without marker runes agrees with the full parser |
| MarkdownParser.ParseKeepsText | internal/core/markdown/markdown.go:67-75 | on every input the plain text is a subsequence of the source, and non-empty if the source is |
| MarkdownParser.NoTokenNoSpan | internal/core/markdown/markdown.go:193-219 | a body without a marker's token yields no span of that kind, which is why no kind nests in itself |
| MarkdownParser.ParseIsLaminar | internal/core/markdown/markdown.go:67-219 | on every input the spans are in bounds, of positive length, pairwise apart or nested, no kind in itself, nothing inside code |
| MarkdownParser.ParseWellFormed | internal/core/markdown/markdown.go:44-58 | all of this for the sorted result of Parse |
| MarkdownDialect.SpansCover | internal/core/markdown/markdown.go:67-219 | for every source: a code span covers one line without a backtick, the language of a fence is one word, and the target of a link is not empty and holds no blank, newline or closing parenthesis |
| MarkdownDialect.CodeAcrossLinesStays | internal/core/markdown/markdown.go:138-154 | backticks around text that runs over a line are left as typed, with no span |
| MarkdownDialect.BrokenLinkStays | internal/core/markdown/markdown.go:158-188 | a link without a label, or to a target that is blank or has white space inside, is left as typed |
| MarkdownDialect.LinkReads | internal/core/markdown/markdown.go:158-188 | any other link around plain text is one span to the target without the white space around it |
| MarkdownDialect.EmptyPairStays | internal/core/markdown/markdown.go:193-201 | paired markers with nothing between them are left as typed |
| MarkdownDialect.PairsRead | internal/core/markdown/markdown.go:25-38 | each of the four markers around plain text gives its own kind of span over it |
| MarkdownDialect.BlankLineIsCode | internal/core/markdown/markdown.go:105-134 | a line behind an opening fence with a blank in it belongs to the code, which then has no language |
| MarkdownDialect.OneLineFence | internal/core/markdown/markdown.go:105-134 | a fence with its code on one line has no language |
| MarkdownRender.EdgeBeforeIsStrict | internal/core/markdown/markdown.go:299-315 | the order of edges is a strict total order on edges of different spans |
| MarkdownRender.SinkEdge | internal/core/markdown/markdown.go:280-284 | one round of the in-place insertion sort inserts one edge among the sorted ones before it, and leaves the rest |
| MarkdownRender.SortInPlace | internal/core/markdown/markdown.go:278-284 | the array ends up as the specification's insertion sort of it |
| MarkdownRender.RenderOrder | internal/core/markdown/markdown.go:260-284 | the sorted edges are a strictly sorted permutation of the collected ones |
| MarkdownRender.SortedIsUnique | internal/core/markdown/markdown.go:299-315 | there is only one strictly sorted order of a list of edges |
| MarkdownRender.CollectEdges | internal/core/markdown/markdown.go:260-274 | an opening and a closing edge for every span that is written, clamped to the text |
| MarkdownRender.WriteOut | internal/core/markdown/markdown.go:285-296 | walking the text with an index into the edges writes the woven tokens and runes |
| MarkdownRender.Render | internal/core/markdown/markdown.go:248-297 | the output is the specification's rendering, for any spans at all |
| MarkdownRender.RenderErasesToText | internal/core/markdown/markdown.go:248-297 | for any spans: erasing the tokens leaves the text, every edge is written exactly once, in strictly sorted order |
| MarkdownDialect.TokensAre | internal/core/markdown/markdown.go:317-336 | the markers of every kind, character by character |
| MarkdownDialect.NothingWritten | internal/core/markdown/markdown.go:248-274 | spans of other kinds, without length, or starting outside the text leave the text as it is |
| MarkdownDialect.OneWritten | internal/core/markdown/markdown.go:248-297 | any other span alone is written as its markers around the runes it covers, cut at the end of the text |
| MarkdownNesting.WeaveBrackets | internal/core/markdown/markdown.go:285-296 | edges in bracket order are written as a properly bracketed text |
| MarkdownNesting.RenderIsMarkup | internal/core/markdown/markdown.go:248-297 | for nested spans Render writes each span's opener, its inside, its closer, and then the rest |
| MarkdownScan.StepPaired | internal/core/markdown/markdown.go:193-219 | a paired marker around a body that does not close it parses to the body and one span |
| MarkdownScan.StepLink | internal/core/markdown/markdown.go:158-188 | a written link parses to its label and target |
| MarkdownScan.StepCode | internal/core/markdown/markdown.go:138-154 | written code without newline or backtick parses to itself |
| MarkdownScan.StepPre | internal/core/markdown/markdown.go:108-134 | a written fence parses to its language and body, unless the body of a languaged one starts with a newline |
| MarkdownRoundTrip.ParseMarkup | internal/core/markdown/markdown.go:44-336 | bracketed markup of the class parses to its text and its spans, the inner ones first |
| MarkdownRoundTrip.LaminarRoundTrips | internal/core/markdown/markdown.go:44-336 | writable laminar spans come back as the same text and the same multiset of spans |
| MarkdownRoundTrip.RoundTripNeedsLaminar | internal/core/markdown/markdown.go:44-336 | nothing else comes back, for any text and any spans |
| MarkdownRoundTrip.RoundTripIffLaminar | internal/core/markdown/markdown.go:241-247 | for writable spans the round trip holds if and only if they are laminar |
| MarkdownRoundTrip.FenceReadsBackIff | internal/core/markdown/markdown.go:105-134 | a written fence reads back if and only if it has no language or its code does not start with a newline, and what it reads back as otherwise |
| MarkdownRoundTrip.LoneMarkerStays | internal/core/markdown/markdown.go:193-201 | a marker without a partner is left as typed |
| MarkdownRoundTrip.CrossingSpansAreLost | internal/core/markdown/markdown.go:245-247 | bold over "ab" and italic over "bc" are written as a text that parses back without the italic |
| WireEntities.BuildUnits | internal/tg/entities.go:165-174 | the table holds the UTF-16 offset of every rune and of the end |
| WireEntities.UnitToRune | internal/tg/entities.go:165-192 | the binary search returns the least rune at or after the unit |
| WireEntities.RuneToUnit | internal/tg/entities.go:195-212 | the unit of a rune index, clamped to the text |
| WireEntities.RuneOfUnit | internal/tg/entities.go:165-212 | to units and back is the identity on every rune boundary |
| WireEntities.UnitsOfStretch | internal/tg/entities.go:214-219 | a stretch takes a unit for every rune and one more for every rune outside the Basic Multilingual Plane |
| WireEntities.RuneAtIsMonotone | internal/tg/entities.go:165-192 | a later unit is never a smaller rune index |
| WireEntities.InsidePairRoundsUp | internal/tg/entities.go:176-191 | a unit inside a surrogate pair is the rune after it |
| WireEntities.EntitiesFromWire | internal/tg/entities.go:34-57 | the spans of known kinds that cover something, in runes, sorted |
| WireEntities.EntitiesToWire | internal/tg/entities.go:111-159 | the wire spans of sendable kinds that cover something, in units |
| WireEntities.DecodedKind | internal/tg/entities.go:61-107 | a span read has the kind of its constructor, for all nineteen, and the payload of that constructor alone |
| WireEntities.EncodedKind | internal/tg/entities.go:111-159 | a span is sent if and only if it covers text and its kind is one of the ten sent, and then as the constructor of its kind |
| WireEntities.DecodingKeepsNesting | internal/tg/entities.go:34-57 | converted spans are in bounds, and wire spans that were apart or nested still are |
| WireEntities.SpanSurvivesWire | internal/tg/entities.go:34-159 | any one span comes back with the payload of its kind, cut at the end of the text, or not at all, and says which |
| WireEntities.WireRoundTrip | internal/tg/entities.go:34-159 | any list of spans comes back as what each of them could carry, in order |
| WireEntities.ExpressibleSpansSurvive | internal/tg/entities.go:34-159 | sorted in-range spans of the expressible kinds come back equal |
| WireEntities.AlignedWireSurvives | internal/tg/entities.go:61-159 | a wire span on rune boundaries, of a kind this client sends, goes back as it came |
| MessageEdge.ParseIsTyped | internal/core/markdown/markdown.go:67-219 | Parse yields only spans of the seven dialect kinds, each with its own payload and no other |
| MessageEdge.ParsedSpansSurviveWire | internal/tg/entities.go:34-159 | whatever was typed, the spans found come back from the wire unchanged |
| MessageEdge.EditKeepsMessage | internal/core/markdown/markdown.go:241-247 | a message typed, sent, received, written back into the composer and parsed again has its text and spans |
| Session.OwnershipStep | cmd/lazytg/cmd/session.go:85-300 | every step keeps: older sessions are gone or stuck, handles point at the newest, an abandoned newest session is gone, stuck, stopped or in the restarting caller's hand |
| Session.OneLiveSession | cmd/lazytg/cmd/session.go:141-151 | in every run at most one session is alive besides those whose teardown timed out, and it is the newest |
| Session.TwoLiveSessions | cmd/lazytg/cmd/session.go:264-283 | one timed-out teardown and two run loops are live |
| Session.ReleasedStep | cmd/lazytg/cmd/session.go:262-300 | every step keeps: older sessions are cancelled, at most one caller is about to cancel what it took, and the newest session is uncancelled exactly while somebody holds it |
| Session.StopReturns | cmd/lazytg/cmd/session.go:153-159 | after Stop returned no session starts, every older one is cancelled, and the newest is not if and only if the restarting caller, or another Stop while no failed start tore it down, took its handles and has yet to call cancel; with one Stop, the restarting caller, whose next step cancels |
| Session.StopReturnsTooEarly | cmd/lazytg/cmd/session.go:262-292 | Stop returns while Restart holds a live session it has not cancelled |
| Session.NotAuthorizedIsFinal | cmd/lazytg/cmd/session.go:105-130 | in every run, once not-authorized is the verdict the restarting caller waits to read, no session ever starts again; once it has read it, the caller is tearing down, or gone with the supervisor stopped |
| Session.AbortedIsFinal | cmd/lazytg/cmd/session.go:105-120 | nor after a run loop that ended by cancellation before it was up |
| Session.VerdictLeads | cmd/lazytg/cmd/session.go:85-130 | where each verdict takes the restarting caller: a session that is up is left alone; any other one is cancelled and no longer the supervisor's, and a failed start is retried within the cap, an aborted one ends the caller, an unauthorized one stops the supervisor first |
| Session.NoVerdictLeads | cmd/lazytg/cmd/session.go:85-130 | a verdict that does not come in time counts as a failed start, the end of the context as an aborted one |
| Session.LoopEndLeads | cmd/lazytg/cmd/session.go:161-220 | what the end of a run loop tells a caller that still waits; what was reported before stands |
| Session.SignalLeads | internal/core/sync/reconnect.go:140-185 | a listening caller takes an error for a disconnect and pauses; nil and cancellation end it |
| Session.RestartLeads | cmd/lazytg/cmd/session.go:262-283 | after the pause a new session starts at once if none is held; one that is held is cancelled first and replaced only if it is gone within the wait; a stopped supervisor starts none |
| Reconnect.SignalsStep | internal/core/sync/reconnect.go:140-281 | while no teardown times out every step keeps: a stale signal is in the channel only until the new session or the drain replaces it, and the newest session's signal stays until it is received or drained |
| Reconnect.NoSignalMistaken | internal/core/sync/reconnect.go:249-281 | Run never handles a signal of a session that was already replaced |
| Reconnect.NoDeathLost | internal/core/sync/reconnect.go:249-281 | while no teardown times out and Ping never succeeds over a session that has died and reported: when Run listens, such a session's signal is in the channel, unless a capped number of attempts is used up; and if the drain threw it away, the Ping that fails starts another attempt |
| Reconnect.DeathKeptIff | internal/core/sync/reconnect.go:275-281 | whatever Ping answers: when Run listens and the newest session has died and reported, its signal is in the channel if and only if the drain did not throw it away |
| Reconnect.DeathLostIff | internal/core/sync/reconnect.go:185-210 | whatever Ping answers: Run comes to listen to nothing exactly when, after such a drain, Ping succeeds, or fails with the attempts used up |
| Reconnect.DeathLostToAPing | internal/core/sync/reconnect.go:194-209 | the condition on Ping is needed: if a Ping could succeed over a session that has died, which a spent client rules out, Run would listen for ever to nothing |
| Reconnect.DeathLostAtTheCap | internal/core/sync/reconnect.go:195-206 | with a cap of one attempt Run listens for ever to nothing |
| Dialogs.DecodeDialogs | internal/tg/dialogs.go:98-161 | chats and peers of the entries that decode, and a cursor at the last of them exactly when the page is full, not declared whole, and that entry is dated |
| Dialogs.PageIsAsListed | internal/tg/dialogs.go:98-188 | the chats and peers of a page are the entries that came with their peer, in order, each with its date, unread count and hash |
| Dialogs.LeadsOnIff | internal/tg/dialogs.go:111-160 | a page leads on if and only if it is full, not declared whole, and the last entry that came with its peer is dated; the cursor is made of that entry alone |
| Dialogs.FetchDialogs | internal/tg/dialogs.go:44-81 | the page at the cursor's place in a fixed list, with the folder kept on the cursor |
| Dialogs.PositionOfCursor | internal/tg/dialogs.go:112-124 | a cursor names exactly the entry it was made from |
| DialogSync.DialogsService.DeleteChatsExcept | internal/storage/sqlite/repo.go:349-374 | removes exactly the rows not in the list, refuses an empty list |
| DialogSync.DialogsService.Persist | internal/core/sync/dialogs.go:317-354 | the peers table is the peers written in order, the chats table the rows, failed writes of each skipped without regard to the other, and the count says how many rows |
| DialogSync.DialogsService.Walk | internal/core/sync/dialogs.go:193-260 | ids seen, rows and peers stored, completeness and failure are those of the walk over list positions, for every script of trouble; the cursor always advances |
| DialogSync.DialogsService.EnsureSelf | internal/core/sync/dialogs.go:266-289 | Saved Messages is stored and kept exactly when nobody listed it and its row could be written; its peer is written even when its row cannot be |
| DialogSync.DialogsService.Sync | internal/core/sync/dialogs.go:163-187 | the chats table after both walks, Saved Messages and the prune, the peers table, whether it failed, and the count returned |
| DialogPrune.CompleteSees | internal/core/sync/dialogs.go:193-260 | a complete walk saw exactly the decodable dialogs up to the end of its last page, and how that page looked |
| DialogPrune.CompleteMissesIff | internal/core/sync/dialogs.go:226-240 | a complete walk missed a chat if and only if its last page was full but blind and a later dialog decodes |
| DialogPrune.GoodCompleteSeesAll | internal/core/sync/dialogs.go:190-193 | if every entry decodes and is dated, a complete walk saw the whole list |
| DialogPrune.GoodCompleteIff | internal/core/sync/dialogs.go:199-240 | exactly when such a list is called complete: it fits the cap and is no multiple of the page size, or is an archive followed by an empty page |
| DialogPrune.LongListIncomplete | internal/core/sync/dialogs.go:296-302 | a list longer than the page cap is never called complete |
| DialogPrune.WalkSeesIff | internal/core/sync/dialogs.go:163-315 | a complete walk of any list saw a listed chat if and only if the chat is not only behind its blind last page |
| DialogPrune.SelfAddedIff | internal/core/sync/dialogs.go:262-289 | Saved Messages joins what was listed if and only if the server has it, no chat seen has its id, and its row could be written |
| DialogPrune.PrunesIff | internal/core/sync/dialogs.go:163-187 | a sync prunes if and only if neither walk failed, each was complete, there is something to keep, and the table can be written |
| DialogPrune.UnseenRow | internal/core/sync/dialogs.go:262-315 | the row of a chat no walk saw: that of Saved Messages if it is added, none after a prune, otherwise what it was |
| DialogPrune.SyncRemovesIff | internal/core/sync/dialogs.go:163-315 | for any lists: a row is removed if and only if the sync prunes, it is not the Saved Messages row it adds, and every walked folder that lists the chat has it only behind a blind last page |
| DialogPrune.ListedSurvives | internal/core/sync/dialogs.go:291-315 | no sync removes a chat the server lists in a walked folder |
| DialogPrune.RowIsAsListed | internal/core/sync/dialogs.go:218-224 | after a sync the row of a chat is what the walks saw of it last, archived exactly when the archive walk saw it |
| DialogPrune.PeerIsAsListed | internal/core/sync/dialogs.go:317-335 | after any sync the peer of a dialog a walk saw is the one it was last listed with, hash included, unless that write failed, and then what it was |
| DialogPrune.OtherPeersStay | internal/core/sync/dialogs.go:262-335 | a peer no walk saw is that of Saved Messages if that is tried and its write works, and otherwise what it was |
| DialogPrune.PruneIsExact | internal/storage/sqlite/repo.go:336-348 | when the prune runs, exactly the listed chats and Saved Messages survive |
| DialogPrune.PastTheCapNothingGoes | internal/core/sync/dialogs.go:296-306 | past the cap or after a failed fetch no row is removed |
| DialogPrune.CountIsWrittenIff | internal/core/sync/dialogs.go:155-187 | the count returned is that of the rows written, unless and only unless the walk of the archive fails after it wrote any |
| DialogPrune.WrittenIs | internal/core/sync/dialogs.go:317-354 | the rows a sync writes are one for every chat seen whose write works, and that of Saved Messages if it is added |
| DialogPrune.ArchiveFailureMiscounts | internal/core/sync/dialogs.go:168-176 | a sync that writes three rows and returns one |
| DialogPrune.BlindPageDeletes | internal/core/sync/dialogs.go:226-240 | a listed chat is deleted after a blind page |
| DialogPrune.UndecodedArchiveDeletes | internal/core/sync/dialogs.go:207-217 | a listed archived chat is deleted when a page before it decodes to nothing |
| SecretStore.LoadedIsFaithful | internal/core/config/secrets.go:349-412 | after a load the cache is the decoding of the file, and on any error nothing is loaded |
| SecretStore.RefreshedIsCurrent | internal/core/config/secrets.go:327-340 | after a refresh the cache is what the file holds now, even when it was not decrypted again |
| SecretStore.RefreshIs | internal/core/config/secrets.go:261-295 | a refresh of a loaded store: an unreadable file fails it and changes nothing, bytes already seen are not opened again, new bytes are opened with the passphrase in hand, and one that does not fit is forgotten with the cache |
| SecretStore.LoadsWith | internal/core/config/secrets.go:349-412 | loading works if and only if the file is absent or readable and sealed with the passphrase given before, else with the one typed in; after a failure the next attempt asks again |
| SecretStore.NoPassphraseLoadsNothing | internal/core/config/secrets.go:349-375 | no passphrase, or an empty one, loads and changes nothing |
| SecretStore.AgeFileStore.EnsureLoaded | internal/core/config/secrets.go:349-412 | all four fields after a load, which succeeds exactly when there is a passphrase and the file is absent or opens with it |
| SecretStore.AgeFileStore.Refresh | internal/core/config/secrets.go:327-340 | the fields after a refresh, decrypting only bytes that are new |
| SecretStore.AgeFileStore.PersistMap | internal/core/config/secrets.go:417-491 | on success the file is the sealed snapshot, on failure the old file |
| SecretStore.AgeFileStore.Mutate | internal/core/config/secrets.go:272-308 | on success the file holds the key as set, or not after a delete, and every other key as before; on failure neither file nor refreshed cache change; and which of the two it is |
| SecretStore.AgeFileStore.Get | internal/core/config/secrets.go:234-245 | answers from the ciphertext last read or written |
| SharedSecrets.ConsistentStep | internal/core/config/secrets.go:272-295 | every file operation of any process keeps the whole invariant |
| SharedSecrets.NoLostUpdate | internal/core/config/secrets.go:261-271 | under every interleaving a key holds what its last committed change left, the value of a set or nothing after a delete, and what it held at first if none names it; acknowledged changes are among the committed ones in order |
| SharedSecrets.OperationCompletes | internal/core/config/secrets.go:272-308 | an operation that gets the lock, a file that opens and a write that works changes the one key as asked and is committed and acknowledged exactly once if it changes anything |
| SharedSecrets.FailureChangesNothing | internal/core/config/secrets.go:272-295 | a refresh or a write that fails leaves the file alone and acknowledges nothing |
| SharedSecrets.LastChangeWins | internal/core/config/secrets.go:254-308 | of any changes made one after another the last one of a key decides what it holds |
| SharedSecrets.LockTakenIff | internal/core/config/secrets.go:276-280 | an idle process gets the lock if and only if nobody holds it, or it is a stub |
| SharedSecrets.GetReads | internal/core/config/secrets.go:234-245 | a Get needs no lock: a loaded store answers from its cache and touches nothing, another one loads the file as it is then |
| SharedSecrets.CachesOnlyMoveForward | internal/core/config/secrets.go:320-340 | every loaded cache is a committed version and the decoding of its ciphertext, and no process ever goes back to an older one |
| SharedSecrets.StubLockLosesAnUpdate | internal/core/config/flock_other.go:9-11 | without an exclusive lock an update is lost |
| TokenBucket.TokenBucket.Take | internal/core/sync/ratelimit.go:74-96 | level and clock mark after the call, grant or the positive sleep it asks for |
| TokenBucket.GrantedIff | internal/core/sync/ratelimit.go:74-96 | a call is granted if and only if what was left and what accrued since, cut at the capacity, make a token; a clock that stands still or steps back adds nothing; a grant takes one token and a refusal none |
| TokenBucket.Conservation | internal/core/sync/ratelimit.go:74-96 | for any calls at any times: granted, left and overflowed tokens add up to what there was and what accrued on the running maximum of the clock; the level stays within 0 and capacity |
| TokenBucket.WindowBound | internal/core/sync/ratelimit.go:9-19 | in any stretch of a history at most capacity plus rate times the clock's advance are granted |
| TokenBucket.SleepIs | internal/core/sync/ratelimit.go:90-95 | the sleep is the longest in whole nanoseconds that is not too long, or a millisecond if that is none |
| TokenBucket.SleepCovers | internal/core/sync/ratelimit.go:90-95 | the cut to whole nanoseconds costs less than a nanosecond's worth, and then the millisecond floor covers it |
| TokenBucket.TokenBucket.Wait | internal/core/sync/ratelimit.go:55-69 | a lone caller on an advancing clock gets its token by its third try at any rate, however late its timers fire, unless cancelled |
| TokenBucket.ThirdTryNeeded | internal/core/sync/ratelimit.go:90-95 | three tries do happen |
| SendDelivery.SendService.Deliver | internal/core/sync/send.go:219-276 | for every script with finitely many FLOOD_WAITs the loop ends at the first attempt that can end it, with one event, one state, and exactly the pauses of the attempts before |
| SendDelivery.SendService.SendText | internal/core/sync/send.go:185-211 | a saved message gets one pending event and then one final event, that of its only last attempt; one that cannot be saved gets none |
| SendDelivery.SentMeansAccepted | internal/core/sync/send.go:224-228 | sent under an id is the final stage exactly when some call was accepted under that id, and no call follows one that was |
| SendDelivery.GoesOnIff | internal/core/sync/send.go:219-276 | a delivery goes on after a FLOOD_WAIT slept out, whatever the budget, after a transient failure slept out within it, and after nothing else |
| SendDelivery.FailsIff | internal/core/sync/send.go:219-276 | the final stage is failed if and only if the last attempt had no token, was refused or cancelled, was cut short in its pause, or was the transient failure that found the budget spent |
| SendDelivery.RetriesSpent | internal/core/sync/send.go:221-265 | transient retries never exceed the budget, and a delivery that outlasts it had the budget minus the FLOOD_WAITs among its first answers |
| SendDelivery.FloodsSpendTheBudget | internal/core/sync/send.go:233-249 | three FLOOD_WAITs and a transient failure end a delivery with no retry made |
| SendDelivery.EndlessFloods | internal/core/sync/send.go:229-249 | a sender that floods for ever is called for ever |
| SendDelivery.CallsBounded | internal/core/sync/send.go:213-276 | how many calls there are at most |
| SendDelivery.BackoffClosedForm | internal/core/sync/send.go:364-370 | from the second retry on the unjittered wait is the doubled start cut at the cap, so at most the cap |
| SendDelivery.NeverSpins | internal/core/sync/send.go:229-249 | every pause is positive, one per attempt that goes on, and a positive FLOOD_WAIT is waited as asked |
| SendDelivery.PauseIs | internal/core/sync/send.go:229-265 | the i-th pause in numbers: what the server asked or a second; after a transient failure the start doubled once for every earlier one, cut at the cap, give or take a tenth |
| SendDelivery.JitterEnds | internal/core/sync/send.go:374-380 | the jittered wait is the exact one cut toward the unjittered, within a nanosecond; the middle draw changes nothing, the lowest takes a tenth off |
| SendDelivery.JitterWithin | internal/core/sync/send.go:374-380 | jitter moves a wait by a tenth at most |
| Dedup.Dispatcher.Seen | internal/tg/updates.go:317-334 | true exactly for keys among the cap most recently touched distinct ones; list and index still agree |
| Dedup.Dispatcher.MoveToBack | internal/tg/updates.go:320-323 | the element is moved to the end of the list, the others keep their order |
| Dedup.TouchKeepsRecent | internal/tg/updates.go:317-334 | the cache is the most recent distinct keys of the whole history after every touch |
| Dedup.DuplicateIff | internal/tg/updates.go:317-334 | a key is taken for a duplicate if and only if it was touched before and fewer than cap other keys were since |
| Polling.PublishMessage | internal/tg/updates.go:245-281 | edits of messages pass, unknown chats are skipped, service lines are never edits, anything else is published exactly when its key is not recent |
| Polling.PublishService | internal/tg/updates.go:458-479 | a service line asks the same filter and is published exactly when its key is not recent |
| Polling.LivePublishedIff | internal/tg/updates.go:245-281 | what is published of a live update and whether the filter is asked: a message or service line with a chat unless its key is recent, an edit of a message always and unasked, the rest never |
| Polling.Latest | internal/tg/polling_fetcher.go:41-78 | the messages above the mark, and the highest id, never below the mark |
| Polling.AboveKeeps | internal/tg/polling_fetcher.go:41-78 | each message above the mark is kept where it was, and no other |
| Polling.PollingFallback.Tick | internal/tg/polling.go:126-209 | watermarks, filter history and published messages after one tick over any chats and answers |
| Polling.WatermarksNeverFall | internal/tg/polling.go:183-209 | no watermark falls, and every answered window is covered afterwards |
| Polling.PolledAreNew | internal/tg/polling.go:126-150 | a tick hands on only messages above their chat's mark |
| Polling.TickHandsOverIff | internal/tg/polling.go:126-209 | a tick over different chats hands over exactly the messages of the windows that answered whose id is above the mark of their chat |
| Polling.TickRaises | internal/tg/polling.go:183-209 | and raises the watermark of a chat to the highest of them, or leaves it |
| Unread.LiveService.Persist | internal/core/sync/live.go:218-296 | row, message and counter for one event |
| Unread.LiveService.Drain | internal/core/sync/live.go:129-168 | open chat and counters after any events |
| Unread.MessageCounts | internal/core/sync/live.go:218-296 | a message makes a row for its chat if the kind of the chat is known, and raises the counter of that row alone, by one, if and only if it is somebody else's, no edit, has an id, and its chat is not on screen |
| Unread.RowIff | internal/core/sync/live.go:218-260 | after any events a chat has a row if and only if it had one or a message of it came with its kind known |
| Unread.UnreadSinceLastCount | internal/core/sync/live.go:268-296 | a counter is the last count given plus the messages since that were not own, not edits and not on screen |
| Unread.FirstArrivalsPass | internal/core/sync/live.go:280-287 | of messages that come close together the filter lets each first arrival through and no other |
| Unread.LiveArrives | internal/tg/updates.go:245-281 | PublishMessage asks the filter and publishes, of a message or a service line, exactly what the arrival it makes does in the model of both paths |
| Unread.TickArrives | internal/tg/polling.go:126-150 | a tick asks the filter and publishes exactly what its polled arrivals do there |
| Unread.UnreadCountsArrivals | internal/core/sync/live.go:280-296 | behind the filter the counter is always the last count plus each new unseen message once plus one for every redelivery of an unseen one after cap or more other messages |
| Unread.UnreadCountsNewMessages | internal/core/sync/live.go:280-296 | behind the filter the counter is the last count plus each new unseen message once, if no redelivery is cap messages apart |
| ReadReceipts.QueuedStep | internal/core/sync/read.go:115-183 | every step keeps: a waiting acknowledgement is in the slot or in the producer's hand, each is displaced by the next one only, and nothing is left once both sides are closed |
| ReadReceipts.RecordedStep | internal/core/sync/read.go:234-255 | every step keeps: each acknowledgement given is of a message read while its chat was on screen, in the order read, and what waits is what was given |
| ReadReceipts.GivenIff | internal/core/sync/read.go:234-255 | in every run exactly the messages read on screen, of someone else and not edited, are given to replaceAck, each once |
| ReadReceipts.ScreenIsLastOpened | internal/core/sync/read.go:244-246 | the chat on screen is the one opened last |
| ReadReceipts.SecondSendSucceeds | internal/core/sync/read.go:265-279 | the last send of replaceAck always finds the slot free |
| ReadReceipts.FullSlotReplaced | internal/core/sync/read.go:265-279 | when the slot is full replaceAck leaves the new acknowledgement in it and displaces the one before, unless the worker took that first |
| ReadReceipts.CanAlwaysFinish | internal/core/sync/read.go:115-183 | nothing gets stuck: from wherever a run has come to, both goroutines can still return |
| ReadReceipts.NothingLeftBehind | internal/core/sync/read.go:115-183 | when done closes every acknowledgement was taken or displaced by the next one, the latest was taken, and for every open that found room the newest message of its chat was looked up, in order |
| ReadReceipts.OpensAreReported | internal/core/sync/read.go:185-232 | when done closes, for every open that found room the server has agreed to at least the newest id found for its chat, unless it refused exactly that request |
| ReadReceipts.OpenQueuedIff | internal/core/sync/read.go:139-155 | an open of a chat is queued, last, unless eight are waiting |
| ReadReceipts.OpenReportedIff | internal/core/sync/read.go:191-223 | looking up an opened chat leads to a report if and only if the id found is above what the server knows |
| ReadReceipts.RequestReportedIff | internal/core/sync/read.go:209-219 | a request is reported if and only if its id is above what the server knows, and recorded as agreed or refused as the server answers |
| ReadReceipts.AgreementClears | internal/core/sync/read.go:216-232 | an agreed id is remembered and its counter cleared next; a refusal changes neither |
| ReadReceipts.ReportsIncrease | internal/core/sync/read.go:209-223 | ids the server agreed to strictly increase per chat |
| ReadReceipts.ClearedAfterAgreement | internal/core/sync/read.go:185-232 | a local counter is cleared only after the server agreed for that chat |
| ReadReceipts.DisplacedCoveredIff | internal/core/sync/read.go:257-279 | in every run: a displaced acknowledgement is covered by the one that displaced it if and only if the last chat opened between their messages, if any was, is its chat, and the id did not fall |
| ReadReceipts.NothingOpenedCovers | internal/core/sync/read.go:257-279 | it is covered if no other chat was opened in between and the id did not fall |
| ReadReceipts.TakenCoversIff | internal/core/sync/read.go:257-279 | when done closes, the same condition for the acknowledgement taken in place of one, through any number of displacements |
| ReadReceipts.HighestTakenIff | internal/core/sync/read.go:106-114 | when done closes, the highest id given for a chat was taken if and only if one of its readings has no break up to the one taken for it |
| ReadReceipts.UnbrokenIsAcknowledged | internal/core/sync/read.go:185-232 | then the server has agreed to at least that id, unless it refused the one taken |
| ReadReceipts.DisplacedByAnotherChat | internal/core/sync/read.go:257-279 | an acknowledgement of one chat is displaced by one of another and nothing replaces it |
| ReadReceipts.HigherIdNeverReported | internal/core/sync/read.go:257-279 | inside one chat, 41 read before 40 is displaced and never reported |
| SearchTokens.Tokenize | internal/core/search/parser.go:104-160 | the loop is the specification's scan |
| SearchTokens.UnclosedIff | internal/core/search/parser.go:101-156 | an error is returned exactly when a quote is left open, and names that quote: everything before it is closed, and behind it every quote is escaped |
| SearchTokens.TokenizedIff | internal/core/search/parser.go:104-160 | for every input: it is cut into exactly the words and phrases it is laid out of, with white space anywhere but needed only between two words; an input laid out of none has an open quote |
| SearchTokens.PlainTokensAreWords | internal/core/search/parser.go:104-160 | an unquoted token is never empty and has no space and no quote |
| SearchTokens.TokenizePrint | internal/core/search/parser.go:104-160 | tokenizing undoes printing, for any plain tokens and phrases that do not end in a backslash |
| SearchTokens.PhraseReadsBackIff | internal/core/search/parser.go:124-135 | a printed phrase is read back if and only if it does not end in a backslash |
| SearchQuery.ApplyOperator | internal/core/search/parser.go:189-228 | what each operator records, which values it refuses, and that an unknown key is left alone |
| SearchQuery.Parse | internal/core/search/parser.go:38-91 | the query, or which error |
| SearchQuery.ParsedIff | internal/core/search/parser.go:35-90 | an input is accepted if and only if no quote is open, no operator has a bad value, and something positive is asked for |
| SearchQuery.WhichError | internal/core/search/parser.go:38-91 | an open quote is reported first, then a refused operator, then that nothing positive is asked for |
| SearchQuery.ParsedAddsUp | internal/core/search/parser.go:38-91 | the query of an accepted input is what its tokens add up to, with the terms joined by blanks |
| SearchQuery.ReadingAdds | internal/core/search/parser.go:46-79 | tokens add to the query one after another: everything keeps its order, and of several dates the last one stays |
| SearchQuery.PhraseAdds | internal/core/search/parser.go:48-54 | a phrase is added unless it is empty |
| SearchQuery.OperatorAdds | internal/core/search/parser.go:162-228 | a lowercase key, a colon and a value add a name without its sign, a date that can be read, or has:file, and which values are refused; any other key leaves the token a word |
| SearchQuery.WordAdds | internal/core/search/parser.go:69-76 | any other word is an exclusion if it starts with a minus and goes on, and else a term |
| SearchQuery.ParsedTextSplits | internal/core/search/query_builder.go:113-117 | splitting the text of a parsed query on white space gives its free-text terms back |
| SearchQuery.FieldsSplit | internal/core/search/query_builder.go:113-117 | white space splits a text anywhere, what has none is one word, and nothing is none |
| SearchRoundTrip.QueryReadsBack | internal/core/search/parser.go:18-91 | any query of words, phrases, exclusions, names, dates and has:file, typed in, is parsed to exactly that query |
| FtsMatch.BuildMatch | internal/core/search/query_builder.go:111-134 | the expression, or none when nothing positive is asked for |
| FtsMatch.LexQuote | internal/core/search/query_builder.go:136-143 | a quoted term is one string again, whatever characters are in it |
| FtsMatch.LexMatch | internal/core/search/query_builder.go:93-134 | the expression lexes to exactly the quoted terms and the operators around them |
| FtsMatch.MatchMeans | internal/core/search/query_builder.go:93-134 | parsed by the FTS5 grammar it means: every term and phrase present and no exclusion present |
| SearchSql.BindStrings | internal/core/search/query_builder.go:145-160 | as many placeholders as names with commas between them, and the names in order |
| SearchSql.BuildSQL | internal/core/search/query_builder.go:30-91 | the text and arguments, and the same error as the expression; SQLite's grammar reads the text, it has as many placeholders as arguments, and bound to them it selects exactly the messages the query wants, whatever the tables hold |
| SearchSql.FilterReads | internal/core/search/query_builder.go:37-90 | character by character, the emitted text lexes and parses to the conditions asked for, in order, placeholders numbered from the left |
| SearchSql.PlaceholdersMatchArguments | internal/core/search/query_builder.go:16-30 | as many placeholders as arguments, for every query |
| SearchSql.FilterMeans | internal/core/search/query_builder.go:37-90 | the parsed text, evaluated on any rows with NULLs and with the arguments bound in order, holds exactly of the messages the query wants |
| SearchSql.SelectedIff | internal/core/search/query_builder.go:41-90 | which messages that is, in the columns of their rows |
| FileNames.SanitizeName | internal/core/files/store.go:208-239 | the loop and both trims are the specification's |
| FileNames.SanitizedIsOneSegment | internal/core/files/store.go:197-207 | a sanitized name is empty or one path segment without separators, control characters, or dots and blanks at its ends |
| FileNames.SanitizedKeepsMiddle | internal/core/files/store.go:197-239 | a sanitized name is one stretch of the name as sent, with an underscore for every separator, wildcard and control character; only dots and white space are lost around it |
| FileNames.SanitizedStaysIff | internal/core/files/store.go:208-239 | a name is left alone if and only if it is an ordinary segment already, without white space at either end |
| FileNames.PathStaysInRoot | internal/core/files/store.go:80-96 | a download's path is always two ordinary segments below the root |
| FileNames.CandidateIs | internal/core/files/store.go:166-181 | the first name tried is the name, the i-th has " (i)" in decimal between stem and extension |
| FileNames.CandidatesDiffer | internal/core/files/store.go:174-181 | no two of the names tried are the same |
| FileNames.CandidateEndsPartial | internal/core/files/store.go:171-181 | a numbered name's path ends in .partial exactly when the name does |
| FileNames.ReserveNamesArePlain | internal/core/files/store.go:166-195 | none of the thousand names tried for a plain name ends like a claim |
| Downloads.OrderlyStep | internal/core/files/download.go:124-171 | for any names every file operation of any download keeps: under the claim's name of one in flight is its claim or a file that landed on it, its path is taken exactly if it was split or names another's claim, no two in flight have one path, every download has at most one file |
| Downloads.PathsAreExclusive | internal/core/files/store.go:159-195 | two downloads in flight never hold the same path, whatever their names |
| Downloads.AloneTakesFirstFree | internal/core/files/store.go:159-195 | a download nobody comes between takes the first of its names that is free as a file and as a claim, its file ends there and nothing else changes; if none is free it fails and changes nothing |
| Downloads.AloneFinishes | internal/core/files/download.go:124-171 | from the claim on: success leaves the file and no claim, a broken stream or a rename that fails leaves nothing |
| Downloads.OverwritesExactlySplits | internal/core/files/download.go:120-171 | a rename replaces a whole file if and only if another rename put one there since the exists-check and it is still there, and another download's claim if and only if that is not so and its path names the claim |
| Downloads.SplitsBetweenCheckAndCreate | internal/core/files/store.go:176-186 | a download is split exactly when another one is renamed onto its path between its exists-check and its exclusive create, at no other step |
| Downloads.PlainNamesSpareClaims | internal/core/files/store.go:166-195 | if no name tried ends in .partial no rename ever replaces a claim |
| Downloads.FinishedFilesKeptIff | internal/core/files/store.go:145-158 | as long as no rename replaced anything every finished download has its bytes; with none in flight that is so if and only if no rename ever replaced anything |
| Downloads.SplitOverwrites | internal/core/files/store.go:182-194 | the split: two downloads complete on one path and the first one's bytes are gone |
| Downloads.ClaimNameCarriesAway | internal/core/files/store.go:182-239 | a download named like another's claim has its bytes carried to the other's path |
| Progress.ProgressThrottler.ShouldEmit | internal/core/files/progress.go:61-94 | whether the tick is reported and what is remembered, for this file only |
| Progress.ReportedIff | internal/core/files/progress.go:61-94 | a tick is reported if and only if it is the first with bytes, a MiB past the last report, or five points past it; what is remembered |
| Progress.ProgressThrottler.Reset | internal/core/files/progress.go:41-45 | the next download of the file starts from nothing, the other files keep what was remembered |
| Progress.ProgressThrottler.Release | internal/core/files/progress.go:51-55 | nothing is remembered of the file, the other files keep theirs |
| Progress.ReportsBounded | internal/core/files/progress.go:5-19 | however finely a download ticks, at most one plus one a MiB plus twenty reports |
| Progress.UnreportedSmall | internal/core/files/progress.go:57-94 | after any tick with bytes less than a MiB and less than five points are unreported |

## Left out

- gotd, MTProto transport, age and scrypt, the OS keyring, SQLite and FTS5 themselves: outcomes of calls are arbitrary, a ciphertext opens with the passphrase that sealed it, tables are maps, whether a row holds a term is an arbitrary predicate.
- `internal/ui`, the cobra commands, wiring, notifications, openers and path resolution: user interface.
- The one-request adapters under `internal/tg` and the JSON codecs for entities, buttons, forwards and reactions: each is settled by reading one branch or the library's marshaller.
- `pumpStates`, `rotate`, gap recovery and the connection-state feed: the feed only labels the status bar, and rotation is one flag.
- Timers, clocks and jitter sources: a wait ends by its event or by a time-out action at any moment; rates and jitter are exact rationals, so floating-point rounding and the overflow of 64-bit durations and byte counts are not modelled. The cut to whole nanoseconds in `take` is.
- Sorting: `SortEntities` calls the library's stable sort on a slice; it is modelled as stable insertion on values.
- Moving an element to the back of `container/list` takes it out in one step; `Dedup.Dispatcher.Locate` looks for it from the front.
- Dialog objects: title, presence, mute and drafts of a dialog are not modelled, and the join of a dialog with its user, chat and message objects is reduced to whether each of them came along.
- DialogSync.DialogsService.Persist: the events it publishes, and so that a peer is written before its chat is announced, are not modelled; peers and chats are tables.
- The server's dialog list is fixed during a sync, and no two dialogs of a list are with the same peer; what a changing list does to a walk is not modelled.
- Bus drops and failed counter writes: `Unread` assumes neither, and failed message saves are those the missing row or id explains.
- Session: the two halves of Restart and Stop are steps of one restarting caller and any number of stopping callers; a second restarting caller is not modelled.
- Reconnect.NoDeathLost: that Ping fails over a spent client is a condition on the run, since the client itself is gotd's; it says nothing of runs in which a teardown timed out; then an older session may still report on the channel.
- SecretStore: permission checks, the temporary file and fsync are one outcome of the write; a crash between two steps leaves the state as it is.
- SearchSql.FilterMeans: the grammar covers the SELECT forms the filters use; the query around them, `rowid` joins and ranking are SQLite's.
- FtsMatch.MatchMeans: the grammar covers the operators the built expressions use; ranking, snippets and trigram matching are SQLite's.
- Downloads: the dedup cache, chmod and events around a download are left out; nobody else deletes or creates files in the directory during a run.
- Frecency, log redaction, the debug ring buffer, the size and write-access monitors and the rediscovery cooldown: easy, or dependent on libraries.
