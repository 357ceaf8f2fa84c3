/** What the session maps of the GPT command keep true, and the three places
    where the code as written departs from what it evidently means (README
    "## Findings"): the history mutated by a failed request, the active
    message released by an older collector, and the button lost to a
    repeated chunk. */
module SessionFacts {
  import opened Common
  import opened Conversation
  import Chunker
  import ChunkerFacts

  // ---------------------------------------------------------------------
  // Invariants
  // ---------------------------------------------------------------------

  /** A history exists exactly for the keys that have a flavor. */
  predicate SameKeys(s: Store) {
    s.conversations.Keys == s.flavors.Keys
  }

  /** A live idle-expiry timer is the one recorded for its key. */
  predicate TimersSound(s: Store) {
    forall t :: t in s.armed ==> s.armed[t] in s.clearTimers && s.clearTimers[s.armed[t]] == t
  }

  /** Every timer and message named in the store was drawn before `nextId`. */
  predicate Fresh(s: Store) {
    && (forall t :: t in s.armed ==> t < s.nextId)
    && (forall k :: k in s.clearTimers ==> s.clearTimers[k] < s.nextId)
    && (forall k :: k in s.active ==> s.active[k] < s.nextId)
    && (forall m :: m in s.watches ==> m < s.nextId)
  }

  /** What holds in both variants. */
  predicate Core(s: Store) {
    SameKeys(s) && TimersSound(s) && Fresh(s)
  }

  /** An enabled button sits on a message whose collector still waits and
      which is the active message of its key. */
  predicate ButtonsLive(s: Store) {
    forall m :: m in s.buttons ==>
      && m in s.watches && s.watches[m].Collecting?
      && s.watches[m].key in s.active && s.active[s.watches[m].key] == m
  }

  /** The system prompt, then user and assistant turns in alternation. */
  predicate Alternates(h: seq<Message>) {
    && |h| % 2 == 1
    && h[0].role == System
    && forall i :: 1 <= i < |h| ==> h[i].role == (if i % 2 == 1 then User else Assistant)
  }

  predicate HistoriesAlternate(s: Store) {
    forall k :: k in s.conversations ==> Alternates(s.conversations[k])
  }

  /** What holds with the repairs. */
  predicate Good(s: Store) {
    Core(s) && ButtonsLive(s) && HistoriesAlternate(s)
  }

  lemma EmptyGood()
    ensures Good(Empty)
  {
  }

  /** Two live idle-expiry timers never clear the same key. */
  lemma OneTimerPerKey(s: Store, t1: nat, t2: nat)
    requires TimersSound(s)
    requires t1 in s.armed && t2 in s.armed && s.armed[t1] == s.armed[t2]
    ensures t1 == t2
  {
  }

  /** Two messages of one key never both show an enabled Clear button. */
  lemma OneButtonPerKey(s: Store, m1: nat, m2: nat)
    requires ButtonsLive(s)
    requires m1 in s.buttons && m2 in s.buttons
    requires s.watches[m1].key == s.watches[m2].key
    ensures m1 == m2
  {
  }

  // ---------------------------------------------------------------------
  // Preservation, event by event
  // ---------------------------------------------------------------------

  lemma BeginKeeps(s: Store, req: Request, p: Persona, v: Variant)
    requires Core(s)
    ensures Core(Begin(s, req, p, v).store)
    ensures ButtonsLive(s) ==> ButtonsLive(Begin(s, req, p, v).store)
  {
  }

  lemma SucceedKeeps(s: Store, t: Turn, reply: string, v: Variant)
    requires Core(s)
    ensures Core(Succeed(s, t, reply, v).store)
    ensures ButtonsLive(s) ==> ButtonsLive(Succeed(s, t, reply, v).store)
  {
    var posts := Posts(Chunker.Split(reply, Chunker.DefaultLimit, v), v);
    assert Succeed(s, t, reply, v).store == Settle(s, t, reply, Last(posts).button);
    SettleCore(s, t, reply, Last(posts).button);
    if ButtonsLive(s) {
      SettleLive(s, t, reply, Last(posts).button);
    }
  }

  lemma SettleCore(s: Store, t: Turn, reply: string, button: bool)
    requires Core(s)
    ensures Core(Settle(s, t, reply, button))
  {
    var r := Settle(s, t, reply, button);
    forall u | u in r.armed
      ensures r.armed[u] in r.clearTimers && r.clearTimers[r.armed[u]] == u
    {
      if u != s.nextId {
        assert u in s.armed;
        if s.armed[u] == t.key {
          assert false;
        }
      }
    }
  }

  lemma SettleLive(s: Store, t: Turn, reply: string, button: bool)
    requires Fresh(s) && ButtonsLive(s)
    ensures ButtonsLive(Settle(s, t, reply, button))
  {
    var r := Settle(s, t, reply, button);
    var m := s.nextId + 1;
    forall x | x in r.buttons
      ensures x in r.watches && r.watches[x].Collecting?
      ensures r.watches[x].key in r.active && r.active[r.watches[x].key] == x
    {
      if x != m {
        assert x in s.buttons && x < s.nextId;
        assert r.watches[x] == s.watches[x];
        if s.watches[x].key == t.key {
          assert false;
        }
      }
    }
  }

  /** A question and its answer keep a history alternating. */
  lemma AlternatesExtend(base: seq<Message>, q: string, a: string)
    requires Alternates(base)
    ensures Alternates(base + [Message(User, q), Message(Assistant, a)])
  {
    var h := base + [Message(User, q), Message(Assistant, a)];
    var n := |base|;
    assert (n + 1) % 2 == 0 && (n + 2) % 2 == 1;
    forall i | 1 <= i < |h|
      ensures h[i].role == (if i % 2 == 1 then User else Assistant)
    {
      if i < n {
        assert h[i] == base[i];
      } else if i == n {
        assert h[i].role == User;
      } else {
        assert i == n + 1 && h[i].role == Assistant;
      }
    }
  }

  /** The history stored by a successful turn alternates when the history
      it continued did. */
  lemma SucceedAlternates(s: Store, req: Request, p: Persona, reply: string)
    requires HistoriesAlternate(s)
    ensures HistoriesAlternate(Turned(s, req, p, Answered(reply), Intended).store)
  {
    var key := KeyOf(req.channel, req.user);
    var base := if Reuses(s, key, p.flavor) then s.conversations[key]
                else [Message(System, PromptFor(p, PromptOption(req)))];
    AlternatesExtend(base, req.query, reply);
  }

  lemma TurnedKeeps(s: Store, req: Request, p: Persona, api: Api, v: Variant)
    requires Core(s)
    ensures Core(Turned(s, req, p, api, v).store)
    ensures v == Intended && Good(s) ==> Good(Turned(s, req, p, api, v).store)
  {
    var b := Begin(s, req, p, v);
    BeginKeeps(s, req, p, v);
    match api
    case Failed =>
    case Threw =>
    case Answered(reply) =>
      SucceedKeeps(b.store, b.turn, reply, v);
      if v == Intended && Good(s) {
        SucceedAlternates(s, req, p, reply);
      }
  }

  lemma AskKeeps(s: Store, req: Request, api: Api, v: Variant)
    requires Core(s)
    ensures Core(Ask(s, req, api, v).store)
    ensures v == Intended && Good(s) ==> Good(Ask(s, req, api, v).store)
  {
    if Route(req.command).Some? {
      TurnedKeeps(s, req, Route(req.command).value, api, v);
    }
  }

  lemma ExpireKeeps(s: Store, timer: nat)
    requires Core(s)
    ensures Core(Expire(s, timer))
    ensures Good(s) ==> Good(Expire(s, timer))
  {
  }

  lemma ClickKeeps(s: Store, m: nat, user: string)
    requires Core(s)
    ensures Core(Click(s, m, user))
    ensures Good(s) ==> Good(Click(s, m, user))
  {
    var r := Click(s, m, user);
    if Clickable(s, m, user) {
      var key := s.watches[m].key;
      forall u | u in r.armed
        ensures r.armed[u] in r.clearTimers && r.clearTimers[r.armed[u]] == u
      {
        assert u in s.armed;
        if s.armed[u] == key {
          assert false;
        }
      }
    }
  }

  lemma TimeoutKeeps(s: Store, m: nat, v: Variant)
    requires Core(s)
    ensures Core(Timeout(s, m, v))
    ensures v == Intended && Good(s) ==> Good(Timeout(s, m, v))
  {
    var r := Timeout(s, m, v);
    if v == Intended && Good(s) && m in s.watches && s.watches[m].Collecting? {
      forall x | x in r.buttons
        ensures x in r.watches && r.watches[x].Collecting?
        ensures r.watches[x].key in r.active && r.active[r.watches[x].key] == x
      {
        assert x in s.buttons && x != m;
      }
    }
  }

  lemma GraceKeeps(s: Store, m: nat, v: Variant)
    requires Core(s)
    ensures Core(GraceOver(s, m, v))
    ensures v == Intended && Good(s) ==> Good(GraceOver(s, m, v))
  {
    var r := GraceOver(s, m, v);
    if v == Intended && Good(s) && m in s.watches && s.watches[m].Grace? {
      forall x | x in r.buttons
        ensures x in r.watches && r.watches[x].Collecting?
        ensures r.watches[x].key in r.active && r.active[r.watches[x].key] == x
      {
        assert x in s.buttons && x != m;
      }
    }
  }

  lemma ApplyKeeps(s: Store, e: Event, v: Variant)
    requires Core(s)
    ensures Core(Apply(s, e, v))
    ensures v == Intended && Good(s) ==> Good(Apply(s, e, v))
  {
    match e
    case Request(req, api) => AskKeeps(s, req, api, v);
    case Expired(timer) => ExpireKeeps(s, timer);
    case Clicked(m, user) => ClickKeeps(s, m, user);
    case TimedOut(m) => TimeoutKeeps(s, m, v);
    case GraceElapsed(m) => GraceKeeps(s, m, v);
  }

  /** Every store reached from the start keeps the core invariants; with
      the repairs it also keeps one button per key and alternating
      histories. */
  lemma {:induction false} ReplayKeeps(es: seq<Event>, v: Variant)
    ensures Core(Replay(Empty, es, v))
    ensures v == Intended ==> Good(Replay(Empty, es, v))
    decreases |es|
  {
    if |es| > 0 {
      ReplayKeeps(es[..|es| - 1], v);
      ApplyKeeps(Replay(Empty, es[..|es| - 1], v), Last(es), v);
    }
  }

  /** With the repairs, however the events interleave, at most one message
      per conversation shows an enabled Clear button. */
  lemma OneButtonAlways(es: seq<Event>, m1: nat, m2: nat)
    requires var s := Replay(Empty, es, Intended);
      m1 in s.buttons && m2 in s.buttons && m1 in s.watches && m2 in s.watches
      && s.watches[m1].key == s.watches[m2].key
    ensures m1 == m2
  {
    ReplayKeeps(es, Intended);
    OneButtonPerKey(Replay(Empty, es, Intended), m1, m2);
  }

  // ---------------------------------------------------------------------
  // Timers
  // ---------------------------------------------------------------------

  /** A new reply cancels the previous idle-expiry timer of its key: when it
      later fires, nothing happens. */
  lemma RearmCancels(s: Store, req: Request, p: Persona, reply: string, v: Variant)
    requires Core(s)
    requires KeyOf(req.channel, req.user) in s.clearTimers
    ensures var prev := s.clearTimers[KeyOf(req.channel, req.user)];
      var r := Turned(s, req, p, Answered(reply), v).store;
      Expire(r, prev) == r
  {
    var key := KeyOf(req.channel, req.user);
    var b := Begin(s, req, p, v);
    var r := Turned(s, req, p, Answered(reply), v).store;
    assert s.clearTimers[key] < s.nextId;
    assert r.clearTimers[key] == s.nextId;
  }

  /** The idle-expiry timer of a reply, when it fires, forgets the history
      and the flavor of that conversation, and nothing else. */
  lemma ExpiryForgets(s: Store, req: Request, p: Persona, reply: string, v: Variant)
    ensures var key := KeyOf(req.channel, req.user);
      var r := Turned(s, req, p, Answered(reply), v).store;
      var e := Expire(r, r.clearTimers[key]);
      && key !in e.conversations && key !in e.flavors
      && e.conversations == r.conversations - {key} && e.flavors == r.flavors - {key}
      && e.armed == r.armed - {r.clearTimers[key]}
      && e.clearTimers == r.clearTimers && e.active == r.active
      && e.buttons == r.buttons && e.watches == r.watches && e.nextId == r.nextId
  {
  }

  /** A press of the button forgets the history, the flavor and the timer,
      where expiry forgets only the first two. */
  lemma ClickForgetsMore(s: Store, m: nat, user: string, timer: nat)
    requires Clickable(s, m, user)
    requires timer in s.armed && s.armed[timer] == s.watches[m].key
    ensures var key := s.watches[m].key;
      && key !in Click(s, m, user).clearTimers
      && Expire(s, timer).clearTimers == s.clearTimers
  {
  }

  // ---------------------------------------------------------------------
  // Histories
  // ---------------------------------------------------------------------

  /** An answered turn that continues a stored history of the same flavor
      appends the query and the answer to it. */
  lemma ContinueAppends(s: Store, req: Request, p: Persona, reply: string, v: Variant)
    requires Reuses(s, KeyOf(req.channel, req.user), p.flavor)
    ensures var key := KeyOf(req.channel, req.user);
      Turned(s, req, p, Answered(reply), v).store.conversations[key]
        == s.conversations[key] + [Message(User, req.query), Message(Assistant, reply)]
  {
  }

  /** An answered turn with no stored history, or with one of the other
      flavor, starts over from the system prompt (the option when given and
      not empty, else the command's own) and records the command's flavor. */
  lemma StartOver(s: Store, req: Request, p: Persona, reply: string, v: Variant)
    requires !Reuses(s, KeyOf(req.channel, req.user), p.flavor)
    ensures var key := KeyOf(req.channel, req.user);
      var r := Turned(s, req, p, Answered(reply), v).store;
      && r.conversations[key] ==
           [Message(System, PromptFor(p, PromptOption(req))), Message(User, req.query), Message(Assistant, reply)]
      && r.flavors[key] == p.flavor
  {
  }

  /** Switching from `/gpt` to `/senko` starts a new history with the
      Senko prompt. */
  lemma FlavorSwitchResets(s: Store, req: Request, reply: string, v: Variant)
    requires req.command == "senko"
    requires KeyOf(req.channel, req.user) in s.flavors
    requires s.flavors[KeyOf(req.channel, req.user)] == NoFlavor
    ensures var r := Ask(s, req, Answered(reply), v).store;
      r.conversations[KeyOf(req.channel, req.user)] ==
        [Message(System, SenkoPrompt), Message(User, req.query), Message(Assistant, reply)]
      && r.flavors[KeyOf(req.channel, req.user)] == Senko
  {
    var p := Route(req.command).value;
    assert p == Persona(Senko, SenkoPrompt);
    StartOver(s, req, p, reply, v);
  }

  /** A user turn appended to an alternating history breaks the
      alternation: the next turn would have to be the assistant's. */
  lemma UserTurnBreaks(h: seq<Message>, q: string)
    requires Alternates(h)
    ensures !Alternates(h + [Message(User, q)])
  {
    assert |h + [Message(User, q)]| % 2 == 0;
  }

  /** As written, a failed request that continued a stored history leaves
      its query in that history, because the history was extended in place
      before the request was sent; an alternating history stops
      alternating. */
  lemma FailureKeepsQuery(s: Store, req: Request, p: Persona)
    requires Reuses(s, KeyOf(req.channel, req.user), p.flavor)
    ensures var key := KeyOf(req.channel, req.user);
      var r := Turned(s, req, p, Failed, AsWritten);
      && r.shown == Apologised
      && r.store.conversations[key] == s.conversations[key] + [Message(User, req.query)]
      && (Alternates(s.conversations[key]) ==> !Alternates(r.store.conversations[key]))
  {
    var key := KeyOf(req.channel, req.user);
    if Alternates(s.conversations[key]) {
      UserTurnBreaks(s.conversations[key], req.query);
    }
  }

  /** With the repair a failed request leaves the store as it was. */
  lemma FailureLeavesNoTrace(s: Store, req: Request, p: Persona)
    ensures Turned(s, req, p, Failed, Intended).store == s
    ensures Turned(s, req, p, Failed, Intended).shown == Apologised
  {
  }

  /** A `/gpt` or `/senko` request whose OpenAI call throws raises out of
      the handler and leaves the store as a caught failure does. */
  lemma ThrowLikeFailure(s: Store, req: Request, v: Variant)
    requires req.command == "gpt" || req.command == "senko"
    ensures Ask(s, req, Threw, v).shown == Raised
    ensures Ask(s, req, Threw, v).store == Ask(s, req, Failed, v).store
  {
  }

  /** As written, the failed query then stays in the history, so the next
      answered turn of the same conversation sends and stores two user
      turns in a row. */
  lemma AnswerAfterFailure(s: Store, req: Request, p: Persona, reply: string)
    requires Reuses(s, KeyOf(req.channel, req.user), p.flavor)
    requires var h := s.conversations[KeyOf(req.channel, req.user)]; |h| > 0 && Last(h).role == User
    ensures var h := s.conversations[KeyOf(req.channel, req.user)];
      var r := Turned(s, req, p, Answered(reply), AsWritten).store.conversations[KeyOf(req.channel, req.user)];
      && r[|h| - 1].role == User && r[|h|].role == User
      && !Alternates(r)
  {
    var key := KeyOf(req.channel, req.user);
    var h := s.conversations[key];
    ContinueAppends(s, req, p, reply, AsWritten);
    var r := Turned(s, req, p, Answered(reply), AsWritten).store.conversations[key];
    assert r == h + [Message(User, req.query), Message(Assistant, reply)];
    assert r[|h| - 1] == Last(h) && r[|h|] == Message(User, req.query);
    TwoUsersBreak(r, |h| - 1);
  }

  /** Two user turns in a row never alternate. */
  lemma TwoUsersBreak(h: seq<Message>, i: nat)
    requires i + 1 < |h| && h[i].role == User && h[i + 1].role == User
    ensures !Alternates(h)
  {
    var j := if i % 2 == 0 then i else i + 1;
    if j == 0 {
      assert h[0].role != System;
    } else {
      assert j % 2 == 0 && h[j].role != Assistant;
    }
  }

  /** With the repair the failed query leaves no trace, and an alternating
      history stays alternating. */
  lemma FailedQueryForgotten(s: Store, req1: Request, req2: Request, p: Persona, reply: string)
    requires req2.channel == req1.channel && req2.user == req1.user
    requires Reuses(s, KeyOf(req1.channel, req1.user), p.flavor)
    requires Alternates(s.conversations[KeyOf(req1.channel, req1.user)])
    ensures var key := KeyOf(req1.channel, req1.user);
      var s1 := Turned(s, req1, p, Failed, Intended).store;
      var s2 := Turned(s1, req2, p, Answered(reply), Intended).store;
      && s2.conversations[key] == s.conversations[key] + [Message(User, req2.query), Message(Assistant, reply)]
      && Alternates(s2.conversations[key])
  {
    var key := KeyOf(req1.channel, req1.user);
    FailureLeavesNoTrace(s, req1, p);
    ContinueAppends(s, req2, p, reply, Intended);
    AlternatesExtend(s.conversations[key], req2.query, reply);
  }

  // ---------------------------------------------------------------------
  // Buttons
  // ---------------------------------------------------------------------

  /** Only the last message can carry the button. As written it does when
      the reply is one chunk or its last chunk does not already appear
      among the chunks after the first; with the repair it always does. */
  lemma ButtonPlacement(chunks: seq<string>, v: Variant)
    requires |chunks| >= 1
    ensures Last(Posts(chunks, v)).button <==>
      |chunks| == 1 || v == Intended || Last(chunks) !in chunks[1..|chunks| - 1]
  {
    if |chunks| > 1 {
      var rest := chunks[1..];
      PostsLast(chunks, v);
      MarkedLast(rest, v);
      assert rest[..|rest| - 1] == chunks[1..|chunks| - 1];
    }
  }

  /** With several chunks, the last post carries the button as `Marked`
      says for the last of the chunks after the first. */
  lemma PostsLast(chunks: seq<string>, v: Variant)
    requires |chunks| > 1
    ensures Last(Posts(chunks, v)).button == Marked(chunks[1..], |chunks| - 2, v)
  {
  }

  /** The last of the chunks after `shift` is marked exactly when, as
      written, its text does not occur before it. */
  lemma MarkedLast(rest: seq<string>, v: Variant)
    requires |rest| > 0
    ensures Marked(rest, |rest| - 1, v) <==> v == Intended || Last(rest) !in rest[..|rest| - 1]
  {
  }

  /** As written, a reply of three equal lines, each one short of the
      limit, becomes three equal chunks of which none gets the button: the
      last chunk is found first at the start of the shortened array. */
  lemma RepeatedChunkLosesButton(line: string)
    requires ChunkerFacts.Plain(line) && |line| + 1 == Chunker.DefaultLimit
    ensures var w := Posts(Chunker.Split(line + "\n" + line + "\n" + line, Chunker.DefaultLimit, AsWritten), AsWritten);
      |w| == 3 && forall i :: 0 <= i < |w| ==> !w[i].button
  {
    ChunkerFacts.ThreeEqualLines(line, Chunker.DefaultLimit, AsWritten);
    var t := line + "\n";
    ButtonPlacement([t, t, t], AsWritten);
    assert [t, t, t][1..2] == [t];
  }

  /** With the repair the same reply puts the button on its last message,
      and so does every reply. */
  lemma RepeatedChunkKeepsButton(line: string)
    requires ChunkerFacts.Plain(line) && |line| + 1 == Chunker.DefaultLimit
    ensures var f := Posts(Chunker.Split(line + "\n" + line + "\n" + line, Chunker.DefaultLimit, Intended), Intended);
      |f| == 3 && Last(f).button && !f[0].button && !f[1].button
  {
    ChunkerFacts.ThreeEqualLines(line, Chunker.DefaultLimit, Intended);
    var t := line + "\n";
    ButtonPlacement([t, t, t], Intended);
  }

  /** A successful turn on a consistent store puts the button on its new
      active message exactly when the last post carries it, and takes it off
      the previous active message. */
  lemma SucceedButtons(s: Store, t: Turn, reply: string, v: Variant)
    requires Fresh(s) && ButtonsLive(s)
    ensures var r := Succeed(s, t, reply, v);
      && (r.store.active[t.key] in r.store.buttons <==> Last(r.shown.posts).button)
      && (t.key in s.active ==> s.active[t.key] !in r.store.buttons)
  {
    var r := Succeed(s, t, reply, v);
    var m := s.nextId + 1;
    assert r.store.active[t.key] == m;
    if t.key in s.active {
      assert s.active[t.key] < s.nextId;
    }
  }

  /** A successful turn whose reply is one short plain line posts one
      message, with the button: the store is settled with the button on. */
  lemma SucceedSettles(s: Store, t: Turn, reply: string, v: Variant)
    requires ChunkerFacts.Plain(reply) && |reply| < Chunker.DefaultLimit
    ensures Succeed(s, t, reply, v).shown == Posted([Post(reply + "\n", true)])
    ensures Succeed(s, t, reply, v).store == Settle(s, t, reply, true)
  {
    ChunkerFacts.ShortReply(reply, Chunker.DefaultLimit, v);
    assert Posts([reply + "\n"], v) == [Post(reply + "\n", true)];
  }

  /** A store settled with the button on, from a store that agrees with
      `s0` on the active messages, the buttons, the watches and the next id:
      the new message becomes the active one and the only new button, and
      the previous active message loses its button. */
  lemma SettleFrame(s0: Store, s1: Store, t: Turn, reply: string)
    requires s1.active == s0.active && s1.buttons == s0.buttons
    requires s1.watches == s0.watches && s1.nextId == s0.nextId
    ensures var r := Settle(s1, t, reply, true);
      && r.active == s0.active[t.key := s0.nextId + 1]
      && r.buttons == (if t.key in s0.active then s0.buttons - {s0.active[t.key]} else s0.buttons) + {s0.nextId + 1}
      && r.watches == s0.watches[s0.nextId + 1 := Collecting(t.key, t.user)]
      && r.nextId == s0.nextId + 2
  {
  }

  /** A successful turn whose reply is one short plain line posts one
      message, with the button, which becomes the active one. */
  lemma SucceedShort(s: Store, t: Turn, reply: string, v: Variant)
    requires ChunkerFacts.Plain(reply) && |reply| < Chunker.DefaultLimit
    ensures var r := Succeed(s, t, reply, v).store;
      && r.active == s.active[t.key := s.nextId + 1]
      && r.buttons == (if t.key in s.active then s.buttons - {s.active[t.key]} else s.buttons) + {s.nextId + 1}
      && r.watches == s.watches[s.nextId + 1 := Collecting(t.key, t.user)]
      && r.nextId == s.nextId + 2
  {
    SucceedSettles(s, t, reply, v);
    SettleFrame(s, s, t, reply);
  }

  /** An answered turn is `Begin` followed by `Succeed`. */
  lemma AnswerSucceeds(s: Store, req: Request, p: Persona, reply: string, v: Variant)
    ensures var b := Begin(s, req, p, v);
      Turned(s, req, p, Answered(reply), v) == Succeed(b.store, b.turn, reply, v)
  {
  }

  /** `Begin` touches only the histories. */
  lemma BeginFrame(s: Store, req: Request, p: Persona, v: Variant)
    ensures var b := Begin(s, req, p, v);
      && b.store.active == s.active && b.store.buttons == s.buttons
      && b.store.watches == s.watches && b.store.nextId == s.nextId
      && b.turn.key == KeyOf(req.channel, req.user) && b.turn.user == req.user
  {
  }

  /** The effect of a successful turn whose reply is one short plain line:
      one message, with the button, which becomes the active one. */
  lemma TurnShort(s: Store, req: Request, p: Persona, reply: string, v: Variant)
    requires ChunkerFacts.Plain(reply) && |reply| < Chunker.DefaultLimit
    ensures var key := KeyOf(req.channel, req.user);
      var r := Turned(s, req, p, Answered(reply), v).store;
      && r.active == s.active[key := s.nextId + 1]
      && r.buttons == (if key in s.active then s.buttons - {s.active[key]} else s.buttons) + {s.nextId + 1}
      && r.watches == s.watches[s.nextId + 1 := Collecting(key, req.user)]
      && r.nextId == s.nextId + 2
  {
    var b := Begin(s, req, p, v);
    AnswerSucceeds(s, req, p, reply, v);
    BeginFrame(s, req, p, v);
    SucceedSettles(b.store, b.turn, reply, v);
    SettleFrame(s, b.store, b.turn, reply);
  }

  /** A stale collector: message `m` of `key` still collects, while a later
      message of the same key is the active one and shows the button. */
  predicate Stale(s: Store, m: nat, key: Key) {
    && m in s.watches && s.watches[m].Collecting? && s.watches[m].key == key
    && key in s.active && s.active[key] != m && s.active[key] in s.buttons
    && s.active[key] in s.watches && s.watches[s.active[key]].key == key
  }

  /** Two short replies in a row leave the first reply's collector stale. */
  lemma TwoRepliesStale(s: Store, req: Request, p: Persona, a: string, b: string, v: Variant)
    requires Fresh(s)
    requires ChunkerFacts.Plain(a) && |a| < Chunker.DefaultLimit
    requires ChunkerFacts.Plain(b) && |b| < Chunker.DefaultLimit
    ensures var s1 := Turned(s, req, p, Answered(a), v).store;
      Stale(Turned(s1, req, p, Answered(b), v).store, s.nextId + 1, KeyOf(req.channel, req.user))
  {
    var key := KeyOf(req.channel, req.user);
    TurnShort(s, req, p, a, v);
    var s1 := Turned(s, req, p, Answered(a), v).store;
    assert s1.nextId == s.nextId + 2 && s1.watches[s.nextId + 1] == Collecting(key, req.user);
    TurnShort(s1, req, p, b, v);
  }

  /** As written, the stale collector, timing out, releases the active entry
      of the later message, whose button stays enabled: the buttons are no
      longer live. With the repair the active entry stays. */
  lemma StaleTimeoutReleases(s: Store, m: nat, key: Key)
    requires Stale(s, m, key)
    ensures var r := Timeout(s, m, AsWritten);
      key !in r.active && s.active[key] in r.buttons && !ButtonsLive(r)
    ensures Timeout(s, m, Intended).active == s.active
  {
    var r := Timeout(s, m, AsWritten);
    assert s.active[key] in r.buttons && s.active[key] in r.watches;
    assert r.watches[s.active[key]].key == key;
  }

  /** As written, the next short reply after a stale timeout leaves the
      earlier button enabled beside its own: two messages of one
      conversation show the Clear button. */
  lemma StaleTimeoutLeavesTwoButtons(s: Store, m: nat, req: Request, p: Persona, reply: string)
    requires Fresh(s)
    requires Stale(s, m, KeyOf(req.channel, req.user))
    requires ChunkerFacts.Plain(reply) && |reply| < Chunker.DefaultLimit
    ensures var key := KeyOf(req.channel, req.user);
      var prev := s.active[key];
      var r := Turned(Timeout(s, m, AsWritten), req, p, Answered(reply), AsWritten).store;
      && prev in r.buttons && r.active[key] in r.buttons && prev != r.active[key]
      && prev in r.watches && r.watches[prev].key == key
      && r.watches[r.active[key]].key == key
  {
    var key := KeyOf(req.channel, req.user);
    var prev := s.active[key];
    var t := Timeout(s, m, AsWritten);
    StaleTimeoutReleases(s, m, key);
    assert t.nextId == s.nextId && prev < s.nextId;
    assert prev in t.watches && t.watches[prev].key == key;
    TurnShort(t, req, p, reply, AsWritten);
  }

  /** With the repair, after the stale timeout the next reply's message is
      the only one of its conversation with an enabled button. */
  lemma StaleTimeoutHarmless(s: Store, m: nat, req: Request, p: Persona, reply: string)
    requires Good(s)
    requires Stale(s, m, KeyOf(req.channel, req.user))
    ensures var key := KeyOf(req.channel, req.user);
      var r := Turned(Timeout(s, m, Intended), req, p, Answered(reply), Intended).store;
      forall x :: x in r.buttons && x in r.watches && r.watches[x].key == key ==> x == r.active[key]
  {
    var key := KeyOf(req.channel, req.user);
    var t := Timeout(s, m, Intended);
    TimeoutKeeps(s, m, Intended);
    TurnedKeeps(t, req, p, Answered(reply), Intended);
    var r := Turned(t, req, p, Answered(reply), Intended).store;
    forall x | x in r.buttons && x in r.watches && r.watches[x].key == key
      ensures x == r.active[key]
    {
    }
  }
}
