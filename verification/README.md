# senko in Dafny

A model of the core of senko, a Discord bot that forwards `/gpt` and `/senko`
slash commands to the OpenAI chat-completions API and keeps a short-lived
conversation per channel and user. The model covers four pieces:

- **The chunker** (`chunker.dfy`, `chunker_facts.dfy`). `GPT.splitResponse`
  cuts a reply into message-sized chunks line by line. When a cut falls inside
  a fenced code block, it closes the chunk with a fence and reopens the block,
  with its language, in the next chunk. It also tries to put a fence that
  does not start its line onto a line of its own, but as written that
  deletes the fence and its language (see "## Findings"). `text.dfy` holds the JavaScript
  string operations it relies on: `indexOf`, `split` and `join`.
- **The conversation sessions** (`conversation.dfy`, `session_facts.dfy`).
  These are the four maps of the `GPT` instance: histories, flavors,
  idle-expiry timers and active messages. The model covers a request from
  the query to the start of the button collector, and the "Clear Memory"
  button. The 60-minute expiry timer, the 180-second collector timeout and
  the 5-second timer after a press are explicit events. `Replay` runs any
  interleaving of requests and events.
- **The registry** (`registry.dfy`). `BotClient.loadInteractions` imports
  each interaction file, constructs its class and calls its `init`. It then
  registers the instance under every builder name. A failing import ends
  loading.
- **The dispatcher** (`dispatch.dfy`). The `InteractionCreate` handler
  filters the interaction kinds, looks the command up in the registry and
  calls the handler for the kind. For chat-input commands and message
  context menus, it turns a thrown error into an ephemeral notice.

Every operation that the findings below touch takes a `Variant`. `AsWritten`
is the code as it stands. `Intended` is the evident repair. The invariants
of the session store (`SessionFacts.Good`: one live timer per key, one
enabled button per conversation, alternating histories) are proved for
`Intended` over every interleaving of events (`SessionFacts.ReplayKeeps`).
For `AsWritten`, only the part that still holds is proved
(`SessionFacts.Core`).

Four behaviours of the code that a reader may not expect:

- A chunk can exceed the limit. A line longer than the limit is emitted
  whole. After a cut inside a block, the next chunk starts with the
  reopening fence line and then the line that did not fit, so a chunk can
  exceed the limit even when every line is shorter than it: with the
  language `x` and a line one short of the limit, the chunk holds
  `limit + 9` characters (`ChunkerFacts.ReopenedChunkOverflows`). `ChunkerFacts.ChunkBound`
  therefore bounds chunks only when twice the longest line, plus three,
  fits in the limit.
- The first chunk can be empty. When the first line alone reaches the limit,
  the empty accumulator is pushed (`ChunkerFacts.OverlongFirstLine`).
- A line of `limit - 1` characters followed by an empty line gives two
  chunks, not one. The cut test is `>=`, and the first line's break counts
  (`ChunkerFacts.FullLineThenEmptyLine`).
- Chunks are not always balanced. A closing fence that lands on a cut reads
  as a bare fence, so the block counts as closed and the chunk before the cut
  gets no closing fence (`ChunkerFacts.ClosingFenceAtCut`).

## Model

| member | source | states |
|---|---|---|
| Text.SplitOn | src/interactions/gpt.ts:230 | `split` yields at least one piece, and no piece contains the separator |
| Text.JoinSplit | src/interactions/gpt.ts:239-240 | joining the pieces of a split with the same separator gives back the original string |
| Text.SplitAtFirst | src/interactions/gpt.ts:239-240 | `split(m)[0]` is the text before the first occurrence of `m`, and `split(m).slice(1).join(m)` is the text after it |
| Chunker.TagRun | src/interactions/gpt.ts:233 | the greedy `(.*)` captures the longest prefix free of the four line terminators that `.` does not match |
| Chunker.MatchFence | src/interactions/gpt.ts:233 | the match is null exactly when the line has no fence; otherwise the match is the leftmost fence followed by a capture that runs up to the first line terminator or the end of the line |
| Chunker.MatchedIndex | src/interactions/gpt.ts:237 | `line.indexOf(codeMatch[0])` is the position where the fence was found |
| Chunker.Rewrite | src/interactions/gpt.ts:237-241 | the misplaced-fence rewrite; it has no contract of its own, and `Chunker.RewriteShape` states its result |
| Chunker.LineText | src/interactions/gpt.ts:233-241 | the line the loop goes on with, after any fence was moved; no contract of its own, `ChunkerFacts.LineTextLength` bounds how much it grows |
| Chunker.Step | src/interactions/gpt.ts:233-256 | one iteration of the loop; no contract of its own, `ChunkerFacts.StepCut` and `ChunkerFacts.StepFenceState` state its effect on the chunks and on the block state |
| Chunker.Flush | src/interactions/gpt.ts:259 | the final push of a non-empty chunk; no contract of its own, `Chunker.RunChunkEndsLine` shows the push always happens |
| Chunker.Lines | src/interactions/gpt.ts:230 | a reply always has at least one line; `ChunkerFacts.LinesTerminated` states that the lines, each followed by a break, give back the reply followed by a break |
| Text.IndexOf | src/interactions/gpt.ts:237 | `indexOf` returns the first position where the text occurs, and -1 (`None`) exactly when it does not occur |
| Chunker.RewriteShape | src/interactions/gpt.ts:237-241 | a fence at column 0 leaves the line alone; a fence further right gets a line break before it, and as written the matched text is deleted |
| Chunker.Run | src/interactions/gpt.ts:232-257 | the loop only ever leaves a block open with a non-empty language that has no line terminator |
| Chunker.RunChunkEndsLine | src/interactions/gpt.ts:244-256 | after at least one line, the pending chunk ends with a line break, so the final push at line 259 always happens |
| Chunker.Split | src/interactions/gpt.ts:218-262 | every reply, the empty one included, gives at least one chunk |
| ChunkerFacts.SplitUnwraps | src/interactions/gpt.ts:218-262 | with the fences added at cuts removed, the chunks spell out every line (after any fence was moved), each followed by a line break |
| ChunkerFacts.LinesTerminated | src/interactions/gpt.ts:230 | the lines of a reply, each followed by a break, are the reply followed by a break |
| ChunkerFacts.LosslessWhenFencesLead | src/interactions/gpt.ts:218-262 | when every fence starts its line, the unwrapped chunks are exactly the reply plus a final break |
| ChunkerFacts.NoFenceLossless | src/interactions/gpt.ts:218-262 | for a reply without fences, the chunks concatenated are exactly the reply plus a final break |
| ChunkerFacts.StepCut | src/interactions/gpt.ts:244-256 | a line is appended only while chunk plus line stays under the limit; at a cut, the chunk is pushed (closed by a fence inside a block) and the next chunk starts with the line, after a reopening fence with the same language |
| ChunkerFacts.StepFenceState | src/interactions/gpt.ts:233-236 | a fence sets the block open exactly when text follows it and records that text as the language; other lines change neither |
| ChunkerFacts.LineTextLength | src/interactions/gpt.ts:237-241 | moving a fence lengthens a line by at most the inserted break |
| ChunkerFacts.ChunkBound | src/interactions/gpt.ts:244-256 | when no line is longer than `m` and `2m + 3` fits in the limit, no chunk exceeds the limit plus the closing fence |
| ChunkerFacts.ReopenSplit | src/interactions/gpt.ts:244-259 | a block opened by a fence with a language, then a line that does not fit, then another, gives three chunks: each cut closes its chunk with a fence and reopens the block in the next |
| ChunkerFacts.ReopenedChunkOverflows | src/interactions/gpt.ts:244-249 | with every line shorter than the limit, the chunk that reopens a block can still hold `limit + 9` characters |
| ChunkerFacts.RewriteLosesFence | src/interactions/gpt.ts:238-240 | as written, moving a misplaced fence deletes the fence and its language: the line loses the matched text and gains only the break |
| ChunkerFacts.RewriteKeepsFence | src/interactions/gpt.ts:238-240 | repaired, the moved line is the original with one break inserted before the fence |
| ChunkerFacts.ShortReply | src/interactions/gpt.ts:244-259 | a short plain one-line reply is one chunk |
| ChunkerFacts.OverlongFirstLine | src/interactions/gpt.ts:244-253 | a first line at or over the limit gives an empty chunk followed by the line |
| ChunkerFacts.FullLineThenEmptyLine | src/interactions/gpt.ts:244-256 | a line of `limit - 1` characters and an empty line give two chunks |
| ChunkerFacts.ThreeEqualLines | src/interactions/gpt.ts:244-256 | three equal lines, each one short of the limit, give three equal chunks |
| ChunkerFacts.CutInsideBlock | src/interactions/gpt.ts:244-249 | a cut inside a block closes the chunk with a fence and reopens the block, with its language, at the head of the next chunk |
| ChunkerFacts.ClosingFenceAtCut | src/interactions/gpt.ts:233-253 | a closing fence that lands on a cut is pushed into a new chunk, and the chunk before it gets no closing fence |
| ChunkerFacts.FenceDroppedAsWritten | src/interactions/gpt.ts:233-241 | as written, text followed by a fence and a language gives one chunk without any fence, while the block counts as open |
| ChunkerFacts.FenceKeptIntended | src/interactions/gpt.ts:233-241 | repaired, the same line gives one chunk with the fence and language on their own line |
| Conversation.Route | src/interactions/gpt.ts:54-75 | exactly `gpt` and `senko` start a turn, and only `senko` has the Senko flavor |
| Conversation.PromptFor | src/interactions/gpt.ts:80-83 | a given non-empty system prompt replaces the command's default; an absent or empty one does not |
| Conversation.Begin | src/interactions/gpt.ts:90-108 | the history is reused only with the same flavor, else restarted from the system prompt, and ends with the query; as written, a reused stored history gets the query too, and the store changes exactly then |
| Conversation.FirstIndex | src/interactions/gpt.ts:180 | `indexOf` finds the first occurrence and is -1 exactly when the chunk is absent |
| Conversation.FirstIndexAtMost | src/interactions/gpt.ts:180 | the first occurrence of a chunk is at or before any of its positions |
| Conversation.Marked | src/interactions/gpt.ts:176-181 | only the last of the chunks after `shift` can get the button |
| Conversation.Posts | src/interactions/gpt.ts:166-183 | one message per chunk, in order, with the chunk as content; only the last message can carry the button |
| Conversation.PromptOption | src/interactions/gpt.ts:20-46 | only `/gpt` declares the `systemprompt` option, so a `/senko` request never has one |
| Conversation.Succeed | src/interactions/gpt.ts:140-192 | a reply posts exactly the messages `Conversation.Posts` builds from the reply's chunks, stores the history with the answer and the flavor, arms a new expiry timer with a fresh id and cancels the old one, and makes a new message with a fresh id the active one, with its collector waiting for the user; in the history, flavor, timer, active and watch maps, only the entry for the conversation's key changes; only this conversation's old timer is disarmed, so every other timer stays armed; the previous active message loses its button, the new one has it exactly when its last post carries it, and every other message keeps its button |
| Conversation.Settle | src/interactions/gpt.ts:142-188 | the store after a reply; no contract of its own, `Conversation.Succeed` states every component of it and `SessionFacts.SettleCore` shows it keeps the invariants |
| Conversation.Fail | src/interactions/gpt.ts:125-138 | a failed request shows the apology; the store changes only by the query that `push` put into a reused stored history, and only as written |
| Conversation.Raise | src/interactions/gpt.ts:92-140 | a request whose OpenAI call throws shows nothing itself and leaves the store as a caught failure leaves it; the store is unchanged exactly when repaired or when no history was reused |
| Conversation.Answer | src/interactions/gpt.ts:140-192 | an answered request posts the messages built from the reply's chunks and stores the base history plus query and reply, under the command's flavor |
| Conversation.Ask | src/interactions/gpt.ts:54-75 | an unknown command changes nothing; a known one runs its turn |
| Conversation.Expire | src/interactions/gpt.ts:149-152 | a live expiry timer forgets exactly the history and flavor of its key and disarms only itself, leaving every other timer armed and every collector, button and active message in place; a cancelled one does nothing |
| Conversation.Click | src/interactions/gpt.ts:190-205 | a press by the asking user on a collecting message with an enabled button forgets the history, flavor and timer of its conversation, disables the button and starts the grace period, cancelling only that conversation's timer, while every other conversation keeps its history, flavor and armed timer, every other message keeps its watch, and the active messages stay; any other press does nothing |
| Conversation.Release | src/interactions/gpt.ts:206-214 | as written, the key's active entry is removed whichever message it names; repaired, only while it names the releasing message |
| Conversation.Timeout | src/interactions/gpt.ts:211-215 | a collector timing out takes the button off its message, ends its watch, releases its key's active entry as `Conversation.Release` says, and leaves histories, flavors and timers alone; a message not collecting is unaffected |
| Conversation.GraceOver | src/interactions/gpt.ts:206-209 | the end of the grace period ends the watch, releases the key's active entry as `Conversation.Release` says, and leaves buttons, histories, flavors and timers alone |
| Conversation.Apply | src/interactions/gpt.ts:49-215 | one request or timer or button event; no contract of its own, `SessionFacts.ApplyKeeps` shows it keeps the invariants |
| Conversation.Replay | src/interactions/gpt.ts:49-215 | a sequence of events, first to last; no contract of its own, `SessionFacts.ReplayKeeps` shows every reachable store keeps the invariants |
| SessionFacts.OneTimerPerKey | src/interactions/gpt.ts:148-152 | two live expiry timers never clear the same key |
| SessionFacts.OneButtonPerKey | src/interactions/gpt.ts:184-188 | while buttons are live, two enabled buttons never belong to one conversation |
| SessionFacts.BeginKeeps | src/interactions/gpt.ts:94-108 | starting a turn keeps the core invariants and live buttons |
| SessionFacts.SucceedKeeps | src/interactions/gpt.ts:140-192 | storing a reply keeps the core invariants and live buttons |
| SessionFacts.SucceedAlternates | src/interactions/gpt.ts:142-145 | repaired, every stored history keeps alternating system, user, assistant turns |
| SessionFacts.SettleCore | src/interactions/gpt.ts:142-188 | the store after a reply keeps the core invariants |
| SessionFacts.TurnedKeeps | src/interactions/gpt.ts:77-216 | a request keeps the core invariants, and repaired it keeps all of them |
| SessionFacts.AskKeeps | src/interactions/gpt.ts:54-216 | any request, known command or not, keeps the core invariants, and repaired it keeps all of them |
| SessionFacts.ExpireKeeps | src/interactions/gpt.ts:149-152 | expiry keeps every invariant |
| SessionFacts.ClickKeeps | src/interactions/gpt.ts:194-209 | a press keeps every invariant |
| SessionFacts.TimeoutKeeps | src/interactions/gpt.ts:211-215 | a timeout keeps the core invariants, and repaired it keeps all of them |
| SessionFacts.GraceKeeps | src/interactions/gpt.ts:206-209 | the end of the grace period keeps the core invariants, and repaired it keeps all of them |
| SessionFacts.ApplyKeeps | src/interactions/gpt.ts:49-215 | every single event keeps the core invariants, and repaired it keeps all of them |
| SessionFacts.ReplayKeeps | src/interactions/gpt.ts:49-52 | every store reached from the empty maps keeps the core invariants, and repaired it keeps all of them |
| SessionFacts.OneButtonAlways | src/interactions/gpt.ts:184-215 | repaired, however events interleave, at most one message per conversation shows an enabled button |
| SessionFacts.RearmCancels | src/interactions/gpt.ts:148-152 | after a new reply, the previous expiry timer of the key does nothing when it fires |
| SessionFacts.ExpiryForgets | src/interactions/gpt.ts:149-152 | a reply's expiry timer forgets that conversation's history and flavor and disarms itself, and nothing else changes: other histories, flavors and timers, the buttons, watches and active messages stay |
| SessionFacts.ClickForgetsMore | src/interactions/gpt.ts:194-198 | a press also forgets the timer, where expiry leaves the timer map alone |
| SessionFacts.ContinueAppends | src/interactions/gpt.ts:94-146 | continuing a history of the same flavor appends exactly the query and the answer |
| SessionFacts.StartOver | src/interactions/gpt.ts:94-104 | without a history of the same flavor, the stored history is the system prompt, query and answer, under the command's flavor |
| SessionFacts.FlavorSwitchResets | src/interactions/gpt.ts:57-104 | `/senko` after `/gpt` starts over from the Senko prompt |
| SessionFacts.ThrowLikeFailure | src/interactions/gpt.ts:116-140 | a `/gpt` or `/senko` request whose OpenAI call throws raises out of the handler and leaves the same store as a caught failure |
| SessionFacts.FailureKeepsQuery | src/interactions/gpt.ts:105-138 | as written, a failed request leaves its query in the reused history, which stops alternating |
| SessionFacts.FailureLeavesNoTrace | src/interactions/gpt.ts:125-138 | repaired, a failed request changes nothing but shows the apology |
| SessionFacts.AnswerAfterFailure | src/interactions/gpt.ts:94-145 | as written, the turn after a failed one stores two user turns in a row |
| SessionFacts.FailedQueryForgotten | src/interactions/gpt.ts:94-145 | repaired, a failed turn and then an answered one append only the second query and its answer, and the history still alternates |
| SessionFacts.ButtonPlacement | src/interactions/gpt.ts:166-183 | the last message has the button exactly when there is one chunk, or as written when its chunk does not recur among the chunks after the first |
| SessionFacts.RepeatedChunkLosesButton | src/interactions/gpt.ts:176-181 | as written, three equal full-length lines give three messages, none with the button |
| SessionFacts.RepeatedChunkKeepsButton | src/interactions/gpt.ts:176-181 | repaired, the same reply puts the button on its last message only |
| SessionFacts.SucceedButtons | src/interactions/gpt.ts:184-188 | a reply's active message has an enabled button exactly when its last post has one, and the previous active message loses its button |
| SessionFacts.SucceedShort | src/interactions/gpt.ts:166-192 | a short plain reply posts one message with the button, which becomes the active message |
| SessionFacts.TurnShort | src/interactions/gpt.ts:77-192 | a whole request with a short plain reply does the same, from the request |
| SessionFacts.TwoRepliesStale | src/interactions/gpt.ts:184-192 | two short replies in a row leave the first reply's collector waiting while the second is active |
| SessionFacts.StaleTimeoutReleases | src/interactions/gpt.ts:211-214 | as written, that stale collector's timeout removes the newer active entry while its button stays enabled; repaired, the entry stays |
| SessionFacts.StaleTimeoutLeavesTwoButtons | src/interactions/gpt.ts:184-214 | as written, the next reply then leaves two enabled buttons in one conversation |
| SessionFacts.StaleTimeoutHarmless | src/interactions/gpt.ts:184-214 | repaired, after the stale timeout the next reply's message is the only one of its conversation with an enabled button |
| Registry.Register | src/classes/BotClient.ts:35-37 | every name is bound to the instance, and every other entry is kept |
| Registry.Names | src/classes/BotClient.ts:35 | the names a class registers under; no contract of its own, `Registry.NoBuilders` states the fallback |
| Registry.Entries | src/classes/BotClient.ts:24-37 | the effects of one file; no contract of its own, `Registry.EntriesOrder` and `Registry.InitFirst` state their order |
| Registry.LoadOne | src/classes/BotClient.ts:21-37 | a class whose constructor throws is skipped with a warning; otherwise all its names map to its one instance and other names are untouched |
| Registry.Load | src/classes/BotClient.ts:17-39 | the loop over files whose imports succeed; no contract of its own, `Registry.LoadIsLastDeclarer` states its map and `Registry.LoadLog` its effects |
| Registry.LoadInteractions | src/classes/BotClient.ts:17-39 | loading rejects exactly when some file's import fails |
| Registry.FirstBroken | src/classes/BotClient.ts:20-21 | the first file whose import fails, or the number of files: every earlier import succeeds |
| Registry.LoadStopsAtBrokenImport | src/classes/BotClient.ts:20-21 | loading keeps exactly what the files before the first failing import register, and is the whole loop when no import fails |
| Registry.LastDeclarer | src/classes/BotClient.ts:20-37 | the reference for the map: the last constructed file that declares the name |
| Registry.LoadIsLastDeclarer | src/classes/BotClient.ts:20-37 | a name is registered exactly when some constructed class declares it, bound to the instance of the last such file |
| Registry.LoadNothing | src/classes/BotClient.ts:14 | with no files, the map is the empty one from the constructor |
| Registry.ThrowingClassSkipped | src/classes/BotClient.ts:24-29 | a throwing class leaves the map unchanged and adds one warning |
| Registry.NoBuilders | src/classes/BotClient.ts:35 | without `builders`, the class registers under its name plus `-nobuilders`; an empty array registers nothing |
| Registry.SameInstance | src/classes/BotClient.ts:35-37 | all names of a class, unless a later file takes them, map to the same instance |
| Registry.LoadLog | src/classes/BotClient.ts:20-38 | what loading records is each file's effects in turn |
| Registry.LogFiles | src/classes/BotClient.ts:20-38 | every effect of loading belongs to a file already read |
| Registry.EntriesOrder | src/classes/BotClient.ts:31-37 | within one file, a registration follows the call of `init` |
| Registry.InitBeforeRegistration | src/classes/BotClient.ts:31-37 | every registration names a constructed class, and its `init`, if any, was called before |
| Registry.InitFirst | src/classes/BotClient.ts:31 | within one file, the call of `init` is the first effect |
| Registry.InitOnce | src/classes/BotClient.ts:31 | `init` is called at most once per file |
| Registry.InitCalled | src/classes/BotClient.ts:31 | a constructed class with `init` has it called |
| Dispatch.Handle | src/index.ts:23-60 | other kinds are ignored; an unknown name is logged and nothing is sent; a handler is called exactly when the kind has a branch and the instance has the method; an error notice is sent exactly when a chat or message-context handler throws, ephemeral, by follow-up exactly when already replied or deferred, with the text for its kind |
| Dispatch.Accepted | src/index.ts:24 | the kinds that pass the filter; no contract of its own, `Dispatch.IgnoredKinds` and `Dispatch.UserContextMenuDropped` state what it lets through |
| Dispatch.HandlerFor | src/index.ts:32-49 | the handler each kind is routed to; no contract of its own, `Dispatch.Handle` states the routing |
| Dispatch.IgnoredKinds | src/index.ts:24 | components and modal submissions are ignored without a lookup |
| Dispatch.UserContextMenuDropped | src/index.ts:24-60 | a registered user context-menu command passes the filter, then matches no branch |
| Dispatch.MissingHandlerSilent | src/index.ts:32-51 | a missing handler method is a silent no-op |
| Dispatch.AutocompleteErrorsQuiet | src/index.ts:43-48 | autocomplete errors are never reported to the user |
| Dispatch.BeforeLoading | src/index.ts:17-30 | before the registry is loaded, every accepted interaction is logged as not found |
| Dispatch.BotRegistry | src/interactions/gpt.ts:11-47 | whatever the order of the two files, loading does not reject and exactly `gpt`, `senko` and `ping` are registered; `gpt` and `senko` share an instance, and `ping` has another |
| Dispatch.ChatOnly | src/index.ts:32-60 | a class with only a chat handler is reached by slash commands, and every other kind is dropped |
| Dispatch.BotCommands | src/index.ts:26-48 | the bot's commands reach their chat handler, and context-menu or autocomplete interactions naming them are dropped |
| Dispatch.DeferredChatError | src/index.ts:32-38 | a bot command whose chat handler throws after deferring its reply is logged and answered with one ephemeral follow-up |
| Dispatch.ThrownRequestReported | src/interactions/gpt.ts:92-140 | since the reply is deferred first, a `/gpt` or `/senko` request whose OpenAI call throws ends in the dispatcher's ephemeral follow-up, with the store a caught failure leaves |

## Left out

- The OpenAI request is the `Api` input. It either fails in a way the handler catches (bad JSON, or an HTTP error whose body carries `error`), throws out of the handler (a rejected `fetch`, an HTTP error whose JSON body has no `error` at line 135, or a body without `choices[0]`), or answers with the reply's content. The stored assistant message keeps only its content. The request body, the model name and the key are not modelled.
- The `creativity` option and the temperature (lines 85-88, 114 of `src/interactions/gpt.ts`) only shape the request body, which is left out.
- Discord I/O is reduced to the posts and their button flag: `deferReply`, `editReply`, `followUp` and `update`. A rejected Discord call, and the error paths it would take, are not modelled.
- Wall-clock time: the three timers and the collector are events in any order. Their durations (60 minutes, 180 seconds, 5 seconds) are not modelled.
- Concurrency: a request runs to completion before the next event. In the bot, two requests of one conversation can interleave at their `await`s, and that is not modelled.
- String lengths count characters, while JavaScript's `length` counts UTF-16 code units. A reply with characters outside the Basic Multilingual Plane is cut later here than by the bot.
- `limit` is a natural number. The bot only ever uses the default, 1950.
- Chunker.Split: states only that there is at least one chunk. Its content, lengths and fences are stated by the lemmas in `ChunkerFacts`.
- A press with a custom id other than `clear` is not modelled, because the only button the bot sends is the Clear button.
- `listFiles` and its file order are the input sequence of classes. A failing `import` is the class's `importFails` flag, and it stops loading (`Registry.LoadInteractions`). A file without a default export makes `new` throw inside the `try`, so it is a class whose constructor throws.
- An `init` that throws synchronously would also end loading, since line 31 of `src/classes/BotClient.ts` is outside the `try`. The model treats `init` as returning.
- The rejected `loadInteractions` promise in the `ClientReady` listener (lines 17-21 of `src/index.ts`) is not handled by the bot. The model stops at the `rejected` flag.
- `init` is called without `await`, so a rejection it returns is not observed by loading. The model records only that it was called.
- Logging is not modelled: the `console.debug` line after loading a class, and the two `console.error` calls on the failure paths of a request (lines 129 and 135 of `src/interactions/gpt.ts`).
- The body of `Ping.onChatInteraction`, `deploy.ts`, `guildOnly`, the SQLite database, `login` and the SIGINT handler are not part of this model.
- `interaction.replied || interaction.deferred` is an input to the dispatcher. A rejected `reply` or `followUp` is not modelled.

## Findings

| source | as written | input that shows it | evidently intended | confidence | as-written member | corrected member |
|---|---|---|---|---|---|---|
| src/interactions/gpt.ts:238-240 | the line is rebuilt as `split(m)[0] + '\n' + split(m).slice(1).join(m)`, so the matched fence and its language are dropped | a one-line reply of plain text followed by a fence and a language, such as `see` then a fence then `js`: the chunk holds no fence, yet the chunker counts a block as open | put `m` back after the new break, so the fence starts its own line | high (not executed) | ChunkerFacts.FenceDroppedAsWritten | ChunkerFacts.FenceKeptIntended |
| src/interactions/gpt.ts:206-214 | the collector and the grace timer delete `activeMessages[key]` whatever message it now names | two short replies in one conversation within 180 seconds, then the first collector times out and a third reply arrives: the second and third messages both show an enabled Clear button | delete the entry only while it still names the message whose collector or timer ends | high (not executed) | SessionFacts.StaleTimeoutLeavesTwoButtons | SessionFacts.StaleTimeoutHarmless |
| src/interactions/gpt.ts:105 | `push` appends the query to the history array stored in the map, before the request is sent | a continued conversation whose request fails, followed by an answered one: the stored history holds two user turns in a row | leave the stored history alone until a reply arrives | medium (not executed) | SessionFacts.AnswerAfterFailure | SessionFacts.FailedQueryForgotten |
| src/interactions/gpt.ts:180 | the button goes on a chunk when `cleaned.indexOf(chunk)` is the last index, which fails when the last chunk's text occurs earlier | a reply of three equal 1949-character lines: three messages, none with the Clear button | give the button to the last position, `i === cleaned.length - 1` | high (not executed) | SessionFacts.RepeatedChunkLosesButton | SessionFacts.RepeatedChunkKeepsButton |
