/** The `InteractionCreate` handler (src/index.ts): filter the interaction
    kinds the bot answers, look the command up in the registry, call the
    handler for the interaction's kind, and turn a thrown error into an
    ephemeral notice for commands and message context menus. */
module Dispatch {
  import opened Common
  import Registry
  import Conversation
  import SessionFacts

  /** The kinds of interaction Discord delivers. */
  datatype Kind =
    | ChatInput
    | UserContextMenu
    | MessageContextMenu
    | Autocomplete
    | MessageComponent
    | ModalSubmit

  /** One incoming interaction, with what its handler would do: whether it
      throws, and whether the interaction was replied to or deferred by
      the time the error is caught. */
  datatype Interaction = Interaction(
    kind: Kind,
    commandName: string,
    handlerThrows: bool,
    repliedOrDeferred: bool)

  /** The three optional handler methods of an interaction class. */
  datatype Handler = Chat | Complete | ContextMenu

  datatype Via = Reply | FollowUp
  datatype Notice = Notice(via: Via, content: string, ephemeral: bool)

  /** The `console.error` lines: an unknown command, or a handler's error. */
  datatype Log = NotFound(name: string) | Failed(handler: Handler)

  datatype Outcome = Outcome(called: Option<Handler>, logged: seq<Log>, notices: seq<Notice>)

  const Nothing: Outcome := Outcome(None, [], [])

  const CommandError: string := "An error occurred executing this command."
  const InteractionError: string := "An error occurred executing this interaction."

  /** `isCommand()`: chat input and both context-menu kinds. */
  predicate IsCommand(k: Kind) {
    k == ChatInput || k == UserContextMenu || k == MessageContextMenu
  }

  /** Line 24: the kinds that pass the filter. */
  predicate Accepted(k: Kind) {
    IsCommand(k) || k == Autocomplete || k == MessageContextMenu
  }

  /** Lines 32, 43 and 49: the handler each kind is routed to. A user
      context-menu command passes the filter but matches no branch. */
  function HandlerFor(k: Kind): Option<Handler> {
    match k
    case ChatInput => Some(Chat)
    case Autocomplete => Some(Complete)
    case MessageContextMenu => Some(ContextMenu)
    case _ => None
  }

  predicate Has(hs: Registry.Handlers, h: Handler) {
    match h
    case Chat => hs.chat
    case Complete => hs.autocomplete
    case ContextMenu => hs.contextMenu
  }

  /** Lines 37-41 and 54-58: the notice for a handler's error. */
  function ErrorNotice(h: Handler, repliedOrDeferred: bool): seq<Notice> {
    match h
    case Complete => []
    case Chat => [Notice(if repliedOrDeferred then FollowUp else Reply, CommandError, true)]
    case ContextMenu => [Notice(if repliedOrDeferred then FollowUp else Reply, InteractionError, true)]
  }

  /** Lines 23-60: the whole handler. */
  function Handle(interactions: map<string, Registry.Instance>, i: Interaction): (r: Outcome)
    ensures !Accepted(i.kind) ==> r == Nothing
    ensures Accepted(i.kind) && i.commandName !in interactions ==> r == Outcome(None, [NotFound(i.commandName)], [])
    ensures r.called.Some? <==>
      && HandlerFor(i.kind).Some?
      && i.commandName in interactions
      && Has(interactions[i.commandName].handlers, HandlerFor(i.kind).value)
    ensures r.called.Some? ==> r.called == HandlerFor(i.kind)
    ensures r.called.Some? ==> r.logged == (if i.handlerThrows then [Failed(r.called.value)] else [])
    ensures |r.notices| <= 1
    ensures r.notices != [] <==> r.called.Some? && i.handlerThrows && r.called.value != Complete
    ensures forall n :: n in r.notices ==>
      && n.ephemeral
      && (n.via == FollowUp <==> i.repliedOrDeferred)
      && n.content == (if i.kind == ChatInput then CommandError else InteractionError)
  {
    if !Accepted(i.kind) then Nothing
    else if i.commandName !in interactions then Outcome(None, [NotFound(i.commandName)], [])
    else
      var inst := interactions[i.commandName];
      match HandlerFor(i.kind)
      case None => Nothing
      case Some(h) =>
        if !Has(inst.handlers, h) then Nothing
        else if !i.handlerThrows then Outcome(Some(h), [], [])
        else Outcome(Some(h), [Failed(h)], ErrorNotice(h, i.repliedOrDeferred))
  }

  /** Line 24: message components and modal submissions are ignored
      without a lookup, whatever the registry holds. */
  lemma IgnoredKinds(interactions: map<string, Registry.Instance>, i: Interaction)
    requires i.kind == MessageComponent || i.kind == ModalSubmit
    ensures Handle(interactions, i) == Nothing
  {
  }

  /** Lines 24-60: a user context-menu command passes the filter, is looked
      up, and then matches no branch: nothing is called, logged or sent. */
  lemma UserContextMenuDropped(interactions: map<string, Registry.Instance>, i: Interaction)
    requires i.kind == UserContextMenu && i.commandName in interactions
    ensures Handle(interactions, i) == Nothing
  {
  }

  /** Lines 32-48: a missing handler method (`?.`) is a silent no-op, even
      when the registry has the command. */
  lemma MissingHandlerSilent(interactions: map<string, Registry.Instance>, i: Interaction)
    requires i.commandName in interactions
    requires HandlerFor(i.kind).Some? && !Has(interactions[i.commandName].handlers, HandlerFor(i.kind).value)
    ensures Handle(interactions, i) == Nothing
  {
  }

  /** Lines 43-48: an autocomplete handler's error is logged and never
      reported to the user. */
  lemma AutocompleteErrorsQuiet(interactions: map<string, Registry.Instance>, i: Interaction)
    requires i.kind == Autocomplete
    ensures Handle(interactions, i).notices == []
  {
  }

  /** Lines 26-30 with BotClient.ts line 14: until the registry is loaded,
      every interaction that passes the filter is reported as not found. */
  lemma BeforeLoading(i: Interaction)
    requires Accepted(i.kind)
    ensures Handle(Registry.Fresh.interactions, i).logged == [NotFound(i.commandName)]
    ensures Handle(Registry.Fresh.interactions, i).called == None
  {
  }

  // ---------------------------------------------------------------------
  // The bot's own interactions
  // ---------------------------------------------------------------------

  /** src/interactions/gpt.ts: `GPT` declares the `gpt` and `senko` slash
      commands and only a chat-input handler. */
  const Gpt: Registry.Class :=
    Registry.Class(false, "GPT", Some(["gpt", "senko"]), false, false, Registry.Handlers(true, false, false))

  /** src/interactions/ping.ts: `Ping` declares the `ping` slash command and
      only a chat-input handler. */
  const Ping: Registry.Class :=
    Registry.Class(false, "Ping", Some(["ping"]), false, false, Registry.Handlers(true, false, false))

  /** Loading two files is loading the first, then the second. */
  lemma LoadTwo(a: Registry.Class, b: Registry.Class)
    ensures Registry.Load([a, b]) == Registry.LoadOne(Registry.LoadOne(Registry.Fresh, 0, a), 1, b)
  {
    assert [a, b][..1] == [a] && [a][..0] == [];
    assert Registry.Load([a]) == Registry.LoadOne(Registry.Load([]), 0, a);
  }

  lemma GptKeys()
    ensures (set n | n in Registry.Names(Gpt)) == {"gpt", "senko"}
  {
  }

  lemma PingKeys()
    ensures (set n | n in Registry.Names(Ping)) == {"ping"}
  {
  }

  /** The registry after loading `a` and then `b`. */
  function Pair(a: Registry.Class, b: Registry.Class): map<string, Registry.Instance> {
    Registry.LoadOne(Registry.LoadOne(Registry.Fresh, 0, a), 1, b).interactions
  }

  lemma GptFirst()
    ensures Pair(Gpt, Ping).Keys == {"gpt", "senko", "ping"}
    ensures Pair(Gpt, Ping)["gpt"] == Pair(Gpt, Ping)["senko"] == Registry.Instance(0, Gpt.handlers)
    ensures Pair(Gpt, Ping)["ping"] == Registry.Instance(1, Ping.handlers)
  {
    GptKeys();
    PingKeys();
  }

  lemma PingFirst()
    ensures Pair(Ping, Gpt).Keys == {"gpt", "senko", "ping"}
    ensures Pair(Ping, Gpt)["gpt"] == Pair(Ping, Gpt)["senko"] == Registry.Instance(1, Gpt.handlers)
    ensures Pair(Ping, Gpt)["ping"] == Registry.Instance(0, Ping.handlers)
  {
    GptKeys();
    PingKeys();
  }

  /** Whatever order the two files are listed in, loading does not reject
      and registers exactly `gpt`, `senko` and `ping`, and no `-nobuilders`
      name. */
  lemma BotRegistry(classes: seq<Registry.Class>)
    requires classes == [Gpt, Ping] || classes == [Ping, Gpt]
    ensures Registry.LoadInteractions(classes) == Registry.Loading(Registry.Load(classes), false)
    ensures Registry.Load(classes).interactions.Keys == {"gpt", "senko", "ping"}
    ensures Registry.Load(classes).interactions["gpt"] == Registry.Load(classes).interactions["senko"]
    ensures Registry.Load(classes).interactions["gpt"] != Registry.Load(classes).interactions["ping"]
  {
    Registry.LoadStopsAtBrokenImport(classes);
    LoadTwo(classes[0], classes[1]);
    assert classes == [classes[0], classes[1]];
    if classes[0] == Gpt { GptFirst(); } else { PingFirst(); }
  }

  /** A command whose class has only a chat-input handler reaches it from
      a slash command and is dropped for every other kind. */
  lemma ChatOnly(interactions: map<string, Registry.Instance>, i: Interaction)
    requires i.commandName in interactions
    requires interactions[i.commandName].handlers == Registry.Handlers(true, false, false)
    ensures i.kind == ChatInput ==> Handle(interactions, i).called == Some(Chat)
    ensures i.kind != ChatInput ==> Handle(interactions, i) == Nothing
  {
  }

  /** A slash command of the bot reaches its chat handler; a message
      context-menu or autocomplete interaction naming it finds no handler
      and is dropped. */
  lemma BotCommands(classes: seq<Registry.Class>, i: Interaction)
    requires classes == [Gpt, Ping] || classes == [Ping, Gpt]
    requires i.commandName in {"gpt", "senko", "ping"}
    ensures i.kind == ChatInput ==> Handle(Registry.Load(classes).interactions, i).called == Some(Chat)
    ensures i.kind != ChatInput ==> Handle(Registry.Load(classes).interactions, i) == Nothing
  {
    var m := Registry.Load(classes).interactions;
    assert m[i.commandName].handlers == Registry.Handlers(true, false, false) by {
      LoadTwo(classes[0], classes[1]);
      assert classes == [classes[0], classes[1]];
      if classes[0] == Gpt { GptFirst(); } else { PingFirst(); }
    }
    ChatOnly(m, i);
  }

  /** gpt.ts line 92 defers the reply before the OpenAI request, so a
      `/gpt` or `/senko` request that throws out of its handler reaches
      lines 33-38 as a deferred interaction: the error is logged and an
      ephemeral follow-up reports it, while the store is left as a failed
      request leaves it. */
  lemma ThrownRequestReported(classes: seq<Registry.Class>, s: Conversation.Store, req: Conversation.Request, v: Variant)
    requires classes == [Gpt, Ping] || classes == [Ping, Gpt]
    requires req.command == "gpt" || req.command == "senko"
    ensures Conversation.Ask(s, req, Conversation.Threw, v).shown == Conversation.Raised
    ensures Conversation.Ask(s, req, Conversation.Threw, v).store == Conversation.Ask(s, req, Conversation.Failed, v).store
    ensures Handle(Registry.Load(classes).interactions, Interaction(ChatInput, req.command, true, true))
      == Outcome(Some(Chat), [Failed(Chat)], [Notice(FollowUp, CommandError, true)])
  {
    SessionFacts.ThrowLikeFailure(s, req, v);
    DeferredChatError(classes, req.command);
  }

  /** Lines 32-38: a bot command whose chat handler throws after deferring
      its reply gets one ephemeral follow-up. */
  lemma DeferredChatError(classes: seq<Registry.Class>, command: string)
    requires classes == [Gpt, Ping] || classes == [Ping, Gpt]
    requires command in {"gpt", "senko", "ping"}
    ensures Handle(Registry.Load(classes).interactions, Interaction(ChatInput, command, true, true))
      == Outcome(Some(Chat), [Failed(Chat)], [Notice(FollowUp, CommandError, true)])
  {
    var i := Interaction(ChatInput, command, true, true);
    BotCommands(classes, i);
    var r := Handle(Registry.Load(classes).interactions, i);
    assert |r.notices| == 1 && r.notices[0] in r.notices;
  }
}
