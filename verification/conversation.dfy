/** The conversation sessions of the GPT command (src/interactions/gpt.ts):
    the four maps keyed by channel and user, the idle-expiry timers, the
    "Clear Memory" button and the collector that waits for it.

    Wall-clock timers and the collector are explicit events: `Expire` is the
    60-minute timer firing, `Click` a press of the button, `Timeout` the
    180-second collector giving up, `GraceOver` the 5-second timer after a
    press. A request runs to completion before the next event; the OpenAI
    call is the `Api` input. */
module Conversation {
  import opened Common
  import Chunker

  datatype Role = System | User | Assistant

  datatype Message = Message(role: Role, content: string)

  /** `enum Flavor { None, Senko }`. */
  datatype Flavor = NoFlavor | Senko

  type Key = string

  /** `interaction.channelId + interaction.user.id`. */
  function KeyOf(channel: string, user: string): Key {
    channel + user
  }

  const GptPrompt: string := "You are an assistant."

  /** The multi-line template literal of the `senko` command, with the
      indentation of its continuation lines. */
  const SenkoPrompt: string :=
    "You are Senko, inspired by the caring and nurturing fox spirit" + Gap +
    "from \"Sewayaki Kitsune no Senko-san\", is designed to provide users with a comforting and supportive" + Gap +
    "interaction. She responds with empathy and support, always prioritizing the user's emotional" + Gap +
    "well-being. Her language is polite and filled with respectful terms, using a soft and warm tone to" + Gap +
    "make users feel valued and cared for. Senko offers helpful suggestions and tips, drawing from her" + Gap +
    "domestic skills portrayed in the anime, such as relaxation techniques and simple recipes. She" + Gap +
    "incorporates Japanese cultural references and expressions, adding authenticity and charm to her" + Gap +
    "interactions. The chatbot includes playful emojis and sounds aligned with her fox spirit theme to" + Gap +
    "enhance user engagement. She handles inquiries with patience and reassurance, maintaining a calm" + Gap +
    "demeanor to ensure users feel at ease during their interaction. Senko aims to be a digital caretaker," + Gap +
    "bringing joy and relief to users' daily lives through thoughtful and nurturing interactions."

  /** A line break and the sixteen spaces that indent the prompt's lines. */
  const Gap: string := "\n                "

  const Apology: string := "Sorry - the OpenAI API request failed."

  /** What a command selects: its flavor and its default system prompt. */
  datatype Persona = Persona(flavor: Flavor, prompt: string)

  /** `onChatInteraction`: `gpt` and `senko` start a turn; any other name
      does nothing. */
  function Route(command: string): (p: Option<Persona>)
    ensures p.Some? <==> command == "gpt" || command == "senko"
    ensures p.Some? ==> (p.value.flavor == Senko <==> command == "senko")
  {
    if command == "gpt" then Some(Persona(NoFlavor, GptPrompt))
    else if command == "senko" then Some(Persona(Senko, SenkoPrompt))
    else None
  }

  /** The slash-command options that matter here. `systemPrompt` is `None`
      when the option was not given. */
  datatype Request = Request(command: string, channel: string, user: string, query: string, systemPrompt: Option<string>)

  /** `interaction.options.getString('systemprompt')`: only `gpt` declares
      the option (lines 20-25), so `senko` never receives one. */
  function PromptOption(req: Request): (o: Option<string>)
    ensures req.command != "gpt" ==> o == None
    ensures req.command == "gpt" ==> o == req.systemPrompt
  {
    if req.command == "gpt" then req.systemPrompt else None
  }

  /** The outcome of the OpenAI request: a failure the handler catches (a
      body that is not JSON, lines 126-132, or an HTTP error whose body
      carries `error`, lines 134-138), one it does not (`fetch` rejects,
      lines 116-123; an HTTP error whose JSON body has no `error`, line 135;
      or an ok body without `choices[0]`, line 140), or the content of the
      assistant's reply. */
  datatype Api = Failed | Threw | Answered(reply: string)

  /** The collector waiting on a reply's last message, then the 5-second
      timer after the button was pressed. */
  datatype Watch = Collecting(key: Key, user: string) | Grace(key: Key)

  /** The state of the `GPT` instance. Timers and messages are named by
      numbers drawn from `nextId`. `armed` holds the idle-expiry timers that
      have neither fired nor been cleared, with the key each one clears;
      `buttons` holds the messages that show an enabled Clear button. */
  datatype Store = Store(
    conversations: map<Key, seq<Message>>,
    flavors: map<Key, Flavor>,
    clearTimers: map<Key, nat>,
    armed: map<nat, Key>,
    active: map<Key, nat>,
    watches: map<nat, Watch>,
    buttons: set<nat>,
    nextId: nat)

  const Empty: Store := Store(map[], map[], map[], map[], map[], map[], {}, 0)

  /** The stored history is reused only when it exists and was built with the
      requested flavor. */
  predicate Reuses(s: Store, key: Key, flavor: Flavor) {
    key in s.conversations && key in s.flavors && s.flavors[key] == flavor
  }

  /** `if (systemPrompt)`: a given, non-empty option replaces the default. */
  function PromptFor(persona: Persona, option: Option<string>): (p: string)
    ensures option.Some? && option.value != "" ==> p == option.value
    ensures option.None? || option.value == "" ==> p == persona.prompt
  {
    match option
    case Some(text) => if text != "" then text else persona.prompt
    case None => persona.prompt
  }

  /** The request's own copy of what it sends and later stores. */
  datatype Turn = Turn(key: Key, user: string, flavor: Flavor, history: seq<Message>)

  datatype Begun = Begun(store: Store, turn: Turn)

  /** Lines 78-108: reuse or reset the history, then append the query. As
      written, a reused history is the array stored in the map, so `push`
      also appends the query to the stored history; the intended form
      leaves the store alone until the reply arrives. */
  function Begin(s: Store, req: Request, persona: Persona, v: Variant): (b: Begun)
    ensures b.turn.key == KeyOf(req.channel, req.user) && b.turn.user == req.user && b.turn.flavor == persona.flavor
    ensures |b.turn.history| >= 1 && Last(b.turn.history) == Message(User, req.query)
    ensures !Reuses(s, b.turn.key, persona.flavor) ==>
      b.turn.history == [Message(System, PromptFor(persona, PromptOption(req))), Message(User, req.query)]
    ensures Reuses(s, b.turn.key, persona.flavor) ==>
      b.turn.history == s.conversations[b.turn.key] + [Message(User, req.query)]
    ensures b.store.conversations.Keys == s.conversations.Keys
    ensures b.store == s.(conversations := b.store.conversations)
    ensures forall k :: k in s.conversations && k != b.turn.key ==> b.store.conversations[k] == s.conversations[k]
    ensures b.store == s <==> v == Intended || !Reuses(s, b.turn.key, persona.flavor)
    ensures b.store.conversations ==
      if v == AsWritten && Reuses(s, b.turn.key, persona.flavor)
      then s.conversations[b.turn.key := b.turn.history] else s.conversations
  {
    var key := KeyOf(req.channel, req.user);
    var reuse := Reuses(s, key, persona.flavor);
    var base := if reuse then s.conversations[key]
                else [Message(System, PromptFor(persona, PromptOption(req)))];
    var history := base + [Message(User, req.query)];
    var store := if reuse && v == AsWritten then s.(conversations := s.conversations[key := history]) else s;
    assert reuse && v == AsWritten ==> |store.conversations[key]| != |s.conversations[key]|;
    Begun(store, Turn(key, req.user, persona.flavor, history))
  }

  // ---------------------------------------------------------------------
  // Posting the reply
  // ---------------------------------------------------------------------

  /** A message posted for one chunk, and whether it carries the button. */
  datatype Post = Post(content: string, button: bool)

  /** `xs.indexOf(x)` on an array of strings. */
  function FirstIndex(xs: seq<string>, x: string): (r: Option<nat>)
    ensures r.Some? <==> x in xs
    ensures r.Some? ==> r.value < |xs| && xs[r.value] == x && x !in xs[..r.value]
    decreases |xs|
  {
    if |xs| == 0 then None
    else if xs[0] == x then Some(0)
    else match FirstIndex(xs[1..], x)
      case None => None
      case Some(i) =>
        assert xs[1..][..i] == xs[1..i + 1];
        Some(i + 1)
  }

  /** Lines 176-181: whether the `i`-th of the chunks left after `shift`
      gets the button. As written, `cleaned.indexOf(chunk)` must be the last
      index of the shortened array; the intended form tests the position
      itself. Either way only the last one can. */
  function Marked(rest: seq<string>, i: nat, v: Variant): (b: bool)
    requires i < |rest|
    ensures i < |rest| - 1 ==> !b
  {
    match v
    case AsWritten =>
      FirstIndexAtMost(rest, i);
      FirstIndex(rest, rest[i]) == Some(|rest| - 1)
    case Intended => i == |rest| - 1
  }

  /** The first occurrence of an element is at or before any of its
      positions. */
  lemma {:induction false} FirstIndexAtMost(xs: seq<string>, i: nat)
    requires i < |xs|
    ensures FirstIndex(xs, xs[i]).Some? && FirstIndex(xs, xs[i]).value <= i
    decreases i
  {
    if xs[0] != xs[i] {
      FirstIndexAtMost(xs[1..], i - 1);
    }
  }

  /** Lines 166-183: one chunk is posted with the button; otherwise the first
      chunk is posted without it, `shift` removes it, and each remaining
      chunk carries the button as `Marked` says. */
  function Posts(chunks: seq<string>, v: Variant): (ps: seq<Post>)
    requires |chunks| >= 1
    ensures |ps| == |chunks|
    ensures forall i :: 0 <= i < |ps| ==> ps[i].content == chunks[i]
    ensures forall i :: 0 <= i < |ps| - 1 ==> !ps[i].button
  {
    if |chunks| == 1 then [Post(chunks[0], true)]
    else
      var rest := chunks[1..];
      var tail := seq(|rest|, i requires 0 <= i < |rest| => Post(rest[i], Marked(rest, i, v)));
      assert forall i :: 0 <= i < |tail| - 1 ==> !tail[i].button;
      [Post(chunks[0], false)] + tail
  }

  /** The outcome the user sees: nothing for an unknown command, the apology,
      an exception left to the dispatcher (`Dispatch.Handle` reports it), or
      the posted chunks. */
  datatype Shown = Ignored | Apologised | Raised | Posted(posts: seq<Post>)

  datatype Asked = Asked(store: Store, shown: Shown)

  /** Lines 140-216 after a successful request: store the history with the
      reply and the flavor, replace the idle-expiry timer, post the chunks,
      take the button off the previous active message, make the last
      message the active one and start its collector. */
  function Succeed(s: Store, t: Turn, reply: string, v: Variant): (r: Asked)
    ensures r.store.conversations == s.conversations[t.key := t.history + [Message(Assistant, reply)]]
    ensures r.store.flavors == s.flavors[t.key := t.flavor]
    ensures t.key in r.store.clearTimers && t.key in r.store.active
    ensures r.store.clearTimers == s.clearTimers[t.key := r.store.clearTimers[t.key]]
    ensures r.store.active == s.active[t.key := r.store.active[t.key]]
    ensures r.store.nextId > s.nextId
    ensures s.nextId <= r.store.clearTimers[t.key] < r.store.nextId
    ensures s.nextId <= r.store.active[t.key] < r.store.nextId
    ensures r.shown == Posted(Posts(Chunker.Split(reply, Chunker.DefaultLimit, v), v))
    ensures r.shown.Posted? && |r.shown.posts| >= 1
    ensures var timer := r.store.clearTimers[t.key];
      timer in r.store.armed && r.store.armed[timer] == t.key
    ensures t.key in s.clearTimers ==> s.clearTimers[t.key] !in r.store.armed || s.clearTimers[t.key] == r.store.clearTimers[t.key]
    ensures r.store.armed ==
      (if t.key in s.clearTimers then s.armed - {s.clearTimers[t.key]} else s.armed)[r.store.clearTimers[t.key] := t.key]
    ensures r.store.buttons ==
      (if t.key in s.active then s.buttons - {s.active[t.key]} else s.buttons)
      + (if Last(r.shown.posts).button then {r.store.active[t.key]} else {})
    ensures r.store.nextId == s.nextId + 2
    ensures r.store.watches == s.watches[r.store.active[t.key] := Collecting(t.key, t.user)]
  {
    var posts := Posts(Chunker.Split(reply, Chunker.DefaultLimit, v), v);
    Asked(Settle(s, t, reply, Last(posts).button), Posted(posts))
  }

  /** The store after a successful turn, given whether its last message
      carries the button: the timer takes id `nextId`, the new active
      message `nextId + 1`. */
  function Settle(s: Store, t: Turn, reply: string, button: bool): Store {
    var timer := s.nextId;
    var m := s.nextId + 1;
    var armed := if t.key in s.clearTimers then s.armed - {s.clearTimers[t.key]} else s.armed;
    var kept := if t.key in s.active then s.buttons - {s.active[t.key]} else s.buttons;
    Store(
      s.conversations[t.key := t.history + [Message(Assistant, reply)]],
      s.flavors[t.key := t.flavor],
      s.clearTimers[t.key := timer],
      armed[timer := t.key],
      s.active[t.key := m],
      s.watches[m := Collecting(t.key, t.user)],
      kept + (if button then {m} else {}),
      s.nextId + 2)
  }

  /** The history a turn continues: the stored one when reused, else a
      fresh one holding the system prompt. */
  function Base(s: Store, req: Request, p: Persona): seq<Message> {
    var key := KeyOf(req.channel, req.user);
    if Reuses(s, key, p.flavor) then s.conversations[key]
    else [Message(System, PromptFor(p, PromptOption(req)))]
  }

  /** Lines 110-138 when the request fails: the apology is posted and
      nothing else changes beyond what `Begin` did. */
  function Fail(s: Store, req: Request, p: Persona, v: Variant): (r: Asked)
    ensures r.shown == Apologised
    ensures var key := KeyOf(req.channel, req.user);
      r.store == (if v == AsWritten && Reuses(s, key, p.flavor)
                  then s.(conversations := s.conversations[key := Base(s, req, p) + [Message(User, req.query)]])
                  else s)
  {
    Asked(Begin(s, req, p, v).store, Apologised)
  }

  /** Lines 92-140 when the request throws: the reply was deferred at line
      92, the exception leaves the handler for the dispatcher to report, and
      the store is left as the failed request leaves it. */
  function Raise(s: Store, req: Request, p: Persona, v: Variant): (r: Asked)
    ensures r.shown == Raised
    ensures r.store == Fail(s, req, p, v).store
    ensures r.store == s <==> v == Intended || !Reuses(s, KeyOf(req.channel, req.user), p.flavor)
  {
    Asked(Begin(s, req, p, v).store, Raised)
  }

  /** A successful request: the history with the query and the reply is
      stored under the command's flavor. */
  function Answer(s: Store, req: Request, p: Persona, reply: string, v: Variant): (r: Asked)
    ensures var key := KeyOf(req.channel, req.user);
      && r.shown == Posted(Posts(Chunker.Split(reply, Chunker.DefaultLimit, v), v))
      && r.store.flavors == s.flavors[key := p.flavor]
      && r.store.conversations ==
           s.conversations[key := Base(s, req, p) + [Message(User, req.query), Message(Assistant, reply)]]
  {
    var b := Begin(s, req, p, v);
    var key := b.turn.key;
    var stored := b.turn.history + [Message(Assistant, reply)];
    assert b.turn.history == Base(s, req, p) + [Message(User, req.query)];
    assert stored == Base(s, req, p) + [Message(User, req.query), Message(Assistant, reply)];
    assert b.store.flavors == s.flavors;
    UpdateTwice(s.conversations, key, b.turn.history, stored);
    assert b.store.conversations[key := stored] == s.conversations[key := stored];
    Succeed(b.store, b.turn, reply, v)
  }

  /** A second update of the same key overrides the first. */
  lemma UpdateTwice<K, V>(m: map<K, V>, k: K, x: V, y: V)
    ensures m[k := x][k := y] == m[k := y]
  {
  }

  /** A request for a known command, once its persona is chosen. */
  function Turned(s: Store, req: Request, p: Persona, api: Api, v: Variant): Asked {
    match api
    case Failed => Fail(s, req, p, v)
    case Threw => Raise(s, req, p, v)
    case Answered(reply) => Answer(s, req, p, reply, v)
  }

  /** One `/gpt` or `/senko` request, from the query to the start of the
      collector. */
  function Ask(s: Store, req: Request, api: Api, v: Variant): (r: Asked)
    ensures Route(req.command).None? ==> r == Asked(s, Ignored)
    ensures Route(req.command).Some? ==> r == Turned(s, req, Route(req.command).value, api, v)
  {
    match Route(req.command)
    case None => Asked(s, Ignored)
    case Some(p) => Turned(s, req, p, api, v)
  }

  // ---------------------------------------------------------------------
  // Events after the request
  // ---------------------------------------------------------------------

  /** Lines 149-152: the idle-expiry timer fires and forgets the history and
      the flavor. The timer entry itself is left in place. */
  function Expire(s: Store, timer: nat): (r: Store)
    ensures timer !in s.armed ==> r == s
    ensures timer in s.armed ==>
      var key := s.armed[timer];
      && key !in r.conversations && key !in r.flavors && timer !in r.armed
      && r.conversations == s.conversations - {key} && r.flavors == s.flavors - {key}
      && r.armed == s.armed - {timer}
      && r.clearTimers == s.clearTimers && r.active == s.active && r.buttons == s.buttons
      && r.watches == s.watches && r.nextId == s.nextId
  {
    if timer in s.armed then
      var key := s.armed[timer];
      s.(conversations := s.conversations - {key}, flavors := s.flavors - {key}, armed := s.armed - {timer})
    else s
  }

  /** A press of the Clear button on message `m` by `user` is taken by the
      collector only when it is still collecting, the presser is the user
      who asked, and the message still shows an enabled button. */
  predicate Clickable(s: Store, m: nat, user: string) {
    m in s.watches && s.watches[m].Collecting? && s.watches[m].user == user && m in s.buttons
  }

  /** Lines 194-209: forget the history and the flavor, cancel and forget
      the idle-expiry timer, disable the button and start the 5-second
      timer. */
  function Click(s: Store, m: nat, user: string): (r: Store)
    ensures !Clickable(s, m, user) ==> r == s
    ensures Clickable(s, m, user) ==>
      var key := s.watches[m].key;
      && key !in r.conversations && key !in r.flavors && key !in r.clearTimers
      && (key in s.clearTimers ==> s.clearTimers[key] !in r.armed)
      && m !in r.buttons && m in r.watches && r.watches[m] == Grace(key)
      && r.watches == s.watches[m := Grace(key)]
      && r.armed == (if key in s.clearTimers then s.armed - {s.clearTimers[key]} else s.armed)
      && r.nextId == s.nextId
      && r.conversations == s.conversations - {key} && r.flavors == s.flavors - {key}
      && r.clearTimers == s.clearTimers - {key}
      && r.active == s.active && r.buttons == s.buttons - {m}
  {
    if Clickable(s, m, user) then
      var key := s.watches[m].key;
      var armed := if key in s.clearTimers then s.armed - {s.clearTimers[key]} else s.armed;
      s.(conversations := s.conversations - {key}, flavors := s.flavors - {key},
         clearTimers := s.clearTimers - {key}, armed := armed,
         buttons := s.buttons - {m}, watches := s.watches[m := Grace(key)])
    else s
  }

  /** `this.activeMessages.delete(conversationKey)` run by the collector or
      the grace timer of message `m`. As written it removes whatever message
      is active for the key, which may belong to a later reply; the intended
      form removes the entry only while it is still `m`. */
  function Release(active: map<Key, nat>, key: Key, m: nat, v: Variant): (r: map<Key, nat>)
    ensures key in r ==> v == Intended && key in active && active[key] != m
    ensures forall k :: k in r <==> k in active && (k != key || (v == Intended && active[k] != m))
    ensures forall k :: k in r ==> r[k] == active[k]
  {
    match v
    case AsWritten => active - {key}
    case Intended => if key in active && active[key] == m then active - {key} else active
  }

  /** Lines 211-214: the collector of `m` times out, takes the button off
      its message and releases the active entry. */
  function Timeout(s: Store, m: nat, v: Variant): (r: Store)
    ensures !(m in s.watches && s.watches[m].Collecting?) ==> r == s
    ensures m in s.watches && s.watches[m].Collecting? ==>
      && m !in r.buttons && m !in r.watches
      && r.buttons == s.buttons - {m} && r.watches == s.watches - {m}
      && r.active == Release(s.active, s.watches[m].key, m, v)
      && r.conversations == s.conversations && r.flavors == s.flavors
      && r.armed == s.armed && r.clearTimers == s.clearTimers
  {
    if m in s.watches && s.watches[m].Collecting? then
      var key := s.watches[m].key;
      s.(buttons := s.buttons - {m}, watches := s.watches - {m}, active := Release(s.active, key, m, v))
    else s
  }

  /** Lines 206-209: the 5-second timer after a press removes the disabled
      button and releases the active entry. */
  function GraceOver(s: Store, m: nat, v: Variant): (r: Store)
    ensures !(m in s.watches && s.watches[m].Grace?) ==> r == s
    ensures m in s.watches && s.watches[m].Grace? ==>
      && m !in r.watches && r.watches == s.watches - {m} && r.buttons == s.buttons
      && r.active == Release(s.active, s.watches[m].key, m, v)
      && r.conversations == s.conversations && r.flavors == s.flavors
      && r.armed == s.armed && r.clearTimers == s.clearTimers
  {
    if m in s.watches && s.watches[m].Grace? then
      var key := s.watches[m].key;
      s.(watches := s.watches - {m}, active := Release(s.active, key, m, v))
    else s
  }

  /** Everything that can happen to the store. */
  datatype Event =
    | Request(req: Request, api: Api)
    | Expired(timer: nat)
    | Clicked(message: nat, user: string)
    | TimedOut(message: nat)
    | GraceElapsed(message: nat)

  function Apply(s: Store, e: Event, v: Variant): Store {
    match e
    case Request(req, api) => Ask(s, req, api, v).store
    case Expired(timer) => Expire(s, timer)
    case Clicked(m, user) => Click(s, m, user)
    case TimedOut(m) => Timeout(s, m, v)
    case GraceElapsed(m) => GraceOver(s, m, v)
  }

  /** The store after a sequence of events, first to last. */
  function Replay(s: Store, es: seq<Event>, v: Variant): Store
    decreases |es|
  {
    if |es| == 0 then s else Apply(Replay(s, es[..|es| - 1], v), Last(es), v)
  }
}
