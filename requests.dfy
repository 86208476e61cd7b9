/** The registry of in-flight model requests: submitting one per
    (player, NPC) pair, and polling them each tick. */
module Requests {
  import opened Communication
  import opened Interactions
  import opened Npcs
  import opened Bubbles
  import opened Sequences
  import ChatInput

  /** The registry key of a pair: the player's name, a dash, the NPC's name. */
  function PairKey(player: string, npc: string): string
  {
    player + "-" + npc
  }

  /** The key splits back into the player's name and the NPC's name at the
      dash that follows the player's name. */
  lemma PairKeyParts(player: string, npc: string)
    ensures var k := PairKey(player, npc);
            && |k| == |player| + 1 + |npc| && k[|player|] == '-'
            && k[..|player|] == player && k[|player| + 1..] == npc
  {
  }

  /** For one player, distinct NPC names give distinct keys. */
  lemma PairKeySamePlayer(player: string, n1: string, n2: string)
    ensures PairKey(player, n1) == PairKey(player, n2) <==> n1 == n2
  {
    PairKeyParts(player, n1);
    PairKeyParts(player, n2);
    if PairKey(player, n1) == PairKey(player, n2) {
      assert n1 == PairKey(player, n1)[|player| + 1..];
    }
  }

  /** Names containing a dash can make two different pairs share a key. */
  lemma PairKeysCanCollide()
    ensures PairKey("a-b", "c") == PairKey("a", "b-c")
  {
  }

  /** All keys for the given players and NPC names. */
  ghost function PairKeys(players: seq<string>, names: seq<string>): set<string>
  {
    set p, n | p in players && n in names :: PairKey(p, n)
  }

  /** The interaction a background task sends on behalf of `player` to `npc`. */
  function Outgoing(player: string, npc: string, message: string): (it: Interaction)
    ensures it.senderId == player && it.receiverId == npc && it.message == message && it.actions == []
  {
    Interaction(player, npc, message, [])
  }

  /** A background request: what it was sent with. */
  datatype Task = Task(outgoing: Interaction)

  /** How a finished task ended: the task returned (with the model's reply
      decoded, or `None` when the reply was not a valid interaction), or it
      failed (for instance the network call panicked). */
  datatype TaskOutcome = Completed(decoded: Option<Interaction>) | Failed

  const DecodeErrorMessage: string :=
    "There has been an error converting the AI response (actions_plugin::make_ai_request)"

  /** What a task returns: the decoded reply, or the fixed "error" interaction.
      Decoding never fails its caller. */
  function DecodeReply(decoded: Option<Interaction>): (it: Interaction)
    ensures decoded.Some? ==> it == decoded.value
    ensures decoded.None? ==> it.senderId == "error" && it.receiverId == "error"
                              && it.message == DecodeErrorMessage && it.actions == []
  {
    match decoded
    case Some(reply) => reply
    case None => Interaction("error", "error", DecodeErrorMessage, [])
  }

  /** The names of the NPCs, in query order. */
  function Names(npcs: seq<Npc>): (names: seq<string>)
    ensures |names| == |npcs| && forall i :: 0 <= i < |npcs| ==> names[i] == npcs[i].name
  {
    seq(|npcs|, i requires 0 <= i < |npcs| => npcs[i].name)
  }

  /** How many of `names` equal `name`. */
  function Count(names: seq<string>, name: string): nat
  {
    if names == [] then 0
    else Count(names[..|names| - 1], name) + (if names[|names| - 1] == name then 1 else 0)
  }

  lemma CountStep(names: seq<string>, j: nat, name: string)
    requires j < |names|
    ensures Count(names[..j + 1], name) == Count(names[..j], name) + (if names[j] == name then 1 else 0)
  {
    assert names[..j + 1][..j] == names[..j];
  }

  /** Pushing one more copy of `sections` onto a queue that already holds `c`. */
  lemma EnqueueOneMore(q: map<string, seq<string>>, id: string, sections: seq<string>, c: nat)
    ensures Enqueued(Enqueued(q, id, Repeat(sections, c)), id, sections) == Enqueued(q, id, Repeat(sections, c + 1))
  {
    EnqueuedAppend(q, id, Repeat(sections, c), sections);
  }

  /** One more player's round of `c` pushes and `c` shown bubbles. */
  lemma OnePlayerMore<T>(q: map<string, seq<string>>, id: string, sections: seq<string>, shown: seq<T>, p: nat, c: nat)
    ensures Enqueued(Enqueued(q, id, Repeat(sections, p * c)), id, Repeat(sections, c))
         == Enqueued(q, id, Repeat(sections, (p + 1) * c))
    ensures Repeat(shown, p * c) + Repeat(shown, c) == Repeat(shown, (p + 1) * c)
  {
    var pc := p * c;
    assert pc + c == (p + 1) * c;
    EnqueuedAppend(q, id, Repeat(sections, pc), Repeat(sections, c));
    RepeatAdd(sections, pc, c);
    RepeatAdd(shown, pc, c);
  }

  /** `t` is the task submitted for key `k` with message `msg` by one of
      `players` to one of the NPCs called `names`. */
  ghost predicate Serves(t: Task, k: string, msg: string, players: seq<string>, names: seq<string>)
  {
    t.outgoing == Outgoing(t.outgoing.senderId, t.outgoing.receiverId, msg)
    && t.outgoing.senderId in players && t.outgoing.receiverId in names
    && PairKey(t.outgoing.senderId, t.outgoing.receiverId) == k
  }

  /** The registry after one player's message goes to each NPC in turn; an
      existing entry for the same key is replaced. */
  function RegisterNpcs(reg: map<string, Task>, msg: string, player: string, names: seq<string>): map<string, Task>
  {
    if names == [] then reg
    else
      var n := names[|names| - 1];
      RegisterNpcs(reg, msg, player, names[..|names| - 1])[PairKey(player, n) := Task(Outgoing(player, n, msg))]
  }

  /** The registry after one request is submitted for every player. */
  function RegisterPlayers(reg: map<string, Task>, msg: string, players: seq<string>, names: seq<string>): map<string, Task>
  {
    if players == [] then reg
    else RegisterNpcs(RegisterPlayers(reg, msg, players[..|players| - 1], names), msg, players[|players| - 1], names)
  }

  /** The registry after a batch of requests. */
  function RegisterRequests(reg: map<string, Task>, requests: seq<ChatInput.AiRequestEvent>,
                            players: seq<string>, names: seq<string>): map<string, Task>
  {
    if requests == [] then reg
    else RegisterPlayers(RegisterRequests(reg, requests[..|requests| - 1], players, names),
                         requests[|requests| - 1].msg, players, names)
  }

  lemma {:induction false} RegisterNpcsSpec(reg: map<string, Task>, msg: string, player: string, names: seq<string>)
    ensures var r := RegisterNpcs(reg, msg, player, names);
            && r.Keys == reg.Keys + PairKeys([player], names)
            && (forall k :: k in reg && k !in PairKeys([player], names) ==> r[k] == reg[k])
            && (forall k :: k in PairKeys([player], names) ==> Serves(r[k], k, msg, [player], names))
  {
    if names != [] {
      var init, n := names[..|names| - 1], names[|names| - 1];
      RegisterNpcsSpec(reg, msg, player, init);
      assert names == init + [n];
      assert PairKeys([player], names) == PairKeys([player], init) + {PairKey(player, n)};
    }
  }

  lemma {:induction false} RegisterPlayersSpec(reg: map<string, Task>, msg: string, players: seq<string>, names: seq<string>)
    ensures var r := RegisterPlayers(reg, msg, players, names);
            && r.Keys == reg.Keys + PairKeys(players, names)
            && (forall k :: k in reg && k !in PairKeys(players, names) ==> r[k] == reg[k])
            && (forall k :: k in PairKeys(players, names) ==> Serves(r[k], k, msg, players, names))
  {
    if players != [] {
      var init, p := players[..|players| - 1], players[|players| - 1];
      RegisterPlayersSpec(reg, msg, init, names);
      var mid := RegisterPlayers(reg, msg, init, names);
      RegisterNpcsSpec(mid, msg, p, names);
      assert players == init + [p];
      assert PairKeys(players, names) == PairKeys(init, names) + PairKeys([p], names);
      var r := RegisterNpcs(mid, msg, p, names);
      forall k | k in PairKeys(players, names)
        ensures Serves(r[k], k, msg, players, names)
      {
        if k !in PairKeys([p], names) {
          assert r[k] == mid[k];
          assert r[k].outgoing.senderId in init;
        }
      }
    }
  }

  /** After a non-empty batch of requests every (player, NPC) key is registered,
      each with a task for its own pair carrying the LAST request's message
      (earlier tasks for the key were replaced); other keys are untouched. */
  lemma {:induction false} RegisterRequestsSpec(reg: map<string, Task>, requests: seq<ChatInput.AiRequestEvent>,
                                                 players: seq<string>, names: seq<string>)
    requires requests != []
    ensures var r := RegisterRequests(reg, requests, players, names);
            && r.Keys == reg.Keys + PairKeys(players, names)
            && (forall k :: k in reg && k !in PairKeys(players, names) ==> r[k] == reg[k])
            && (forall k :: k in PairKeys(players, names) ==>
                  Serves(r[k], k, requests[|requests| - 1].msg, players, names))
  {
    var init := requests[..|requests| - 1];
    var mid := RegisterRequests(reg, init, players, names);
    RegisterPlayersSpec(mid, requests[|requests| - 1].msg, players, names);
    if init != [] {
      RegisterRequestsSpec(reg, init, players, names);
    }
  }

  /** Submitting again for a pair that is already registered adds no entry. */
  lemma ResubmitAddsNoEntry(reg: map<string, Task>, msg: string, player: string, npc: string)
    requires PairKey(player, npc) in reg
    ensures RegisterNpcs(reg, msg, player, [npc]).Keys == reg.Keys
    ensures |RegisterNpcs(reg, msg, player, [npc])| == |reg|
  {
    assert [npc][..0] == [];
  }

  /** The User turns each NPC receives from a batch: every request's text once
      per player. */
  function UserTurns(requests: seq<ChatInput.AiRequestEvent>, playerCount: nat): seq<ChatMessage>
  {
    if requests == [] then []
    else UserTurns(requests[..|requests| - 1], playerCount)
         + Repeat([ChatMessage(User, requests[|requests| - 1].msg)], playerCount)
  }

  /** The interaction a finished task returned for `key`, if it completed. */
  function Reply(key: string, outcomes: map<string, TaskOutcome>): (r: seq<Interaction>)
    ensures |r| <= 1
    ensures key in outcomes && outcomes[key].Completed? ==> r == [DecodeReply(outcomes[key].decoded)]
    ensures key !in outcomes || outcomes[key].Failed? ==> r == []
  {
    if key in outcomes && outcomes[key].Completed? then [DecodeReply(outcomes[key].decoded)] else []
  }

  /** The interactions returned by the tasks that completed this tick, in the
      order the registry is visited. */
  function Replies(order: seq<string>, outcomes: map<string, TaskOutcome>): seq<Interaction>
  {
    if order == [] then []
    else
      var k := order[|order| - 1];
      Replies(order[..|order| - 1], outcomes) + Reply(k, outcomes)
  }

  /** The Assistant turns an NPC called `name` receives: each reply it sent,
      once per player. */
  function AssistantTurns(replies: seq<Interaction>, name: string, playerCount: nat): seq<ChatMessage>
  {
    if replies == [] then []
    else
      var r := replies[|replies| - 1];
      AssistantTurns(replies[..|replies| - 1], name, playerCount)
      + (if r.senderId == name then Repeat([ChatMessage(Assistant, r.message)], playerCount) else [])
  }

  /** The bubble queue after the replies' sections are pushed: once per player
      and per NPC carrying the sender's name. */
  function QueueAfter(q: map<string, seq<string>>, replies: seq<Interaction>, names: seq<string>, playerCount: nat)
    : map<string, seq<string>>
  {
    if replies == [] then q
    else
      var r := replies[|replies| - 1];
      Enqueued(QueueAfter(q, replies[..|replies| - 1], names, playerCount), r.senderId,
               Repeat(QueuedSections(r.message), playerCount * Count(names, r.senderId)))
  }

  /** The first bubbles shown for the replies, as (speaker, text). */
  function FirstBubbles(replies: seq<Interaction>, names: seq<string>, playerCount: nat): seq<(string, string)>
  {
    if replies == [] then []
    else
      var r := replies[|replies| - 1];
      FirstBubbles(replies[..|replies| - 1], names, playerCount)
      + Repeat([(r.senderId, FirstBubble(r.message))], playerCount * Count(names, r.senderId))
  }

  /** An NPC's history only ever gains Assistant turns carrying the text of a
      reply that the NPC itself sent; a fallback "error" reply reaches no NPC
      with another name. */
  lemma {:induction false} AssistantTurnsFromOwnReplies(replies: seq<Interaction>, name: string, playerCount: nat)
    ensures forall m :: m in AssistantTurns(replies, name, playerCount) ==>
              m.role == Assistant && exists r :: r in replies && r.senderId == name && r.message == m.content
  {
    if replies != [] {
      var init, r := replies[..|replies| - 1], replies[|replies| - 1];
      AssistantTurnsFromOwnReplies(init, name, playerCount);
      forall m | m in AssistantTurns(replies, name, playerCount)
        ensures m.role == Assistant && exists r' :: r' in replies && r'.senderId == name && r'.message == m.content
      {
        if m in AssistantTurns(init, name, playerCount) {
          var r' :| r' in init && r'.senderId == name && r'.message == m.content;
          assert r' in replies;
        } else {
          RepeatElements([ChatMessage(Assistant, r.message)], playerCount, m);
          assert r in replies;
        }
      }
    }
  }

  /** Each reply an NPC sent becomes exactly one Assistant turn per player. */
  lemma {:induction false} AssistantTurnsLength(replies: seq<Interaction>, name: string, playerCount: nat)
    ensures |AssistantTurns(replies, name, playerCount)|
         == playerCount * |RepliesFrom(replies, name)|
  {
    if replies != [] {
      var init, r := replies[..|replies| - 1], replies[|replies| - 1];
      AssistantTurnsLength(init, name, playerCount);
      var n := |RepliesFrom(init, name)|;
      if r.senderId == name {
        assert |Repeat([ChatMessage(Assistant, r.message)], playerCount)| == playerCount;
        assert playerCount * (n + 1) == playerCount * n + playerCount;
      }
    }
  }

  /** The replies sent by `name`. */
  function RepliesFrom(replies: seq<Interaction>, name: string): seq<Interaction>
  {
    if replies == [] then []
    else RepliesFrom(replies[..|replies| - 1], name)
         + (if replies[|replies| - 1].senderId == name then [replies[|replies| - 1]] else [])
  }

  /** A speaker who sent none of the replies keeps their queue as it was. */
  lemma {:induction false} QueueOnlyForSenders(q: map<string, seq<string>>, replies: seq<Interaction>,
                                               names: seq<string>, playerCount: nat, id: string)
    requires forall r :: r in replies ==> r.senderId != id
    ensures id in QueueAfter(q, replies, names, playerCount) <==> id in q
    ensures id in q ==> QueueAfter(q, replies, names, playerCount)[id] == q[id]
  {
    if replies != [] {
      QueueOnlyForSenders(q, replies[..|replies| - 1], names, playerCount, id);
      assert replies[|replies| - 1] in replies;
    }
  }

  lemma {:induction false} AssistantTurnsAppend(a: seq<Interaction>, b: seq<Interaction>, name: string, playerCount: nat)
    ensures AssistantTurns(a + b, name, playerCount) == AssistantTurns(a, name, playerCount) + AssistantTurns(b, name, playerCount)
  {
    if b != [] {
      assert (a + b)[..|a + b| - 1] == a + b[..|b| - 1];
      AssistantTurnsAppend(a, b[..|b| - 1], name, playerCount);
    } else {
      assert a + b == a;
    }
  }

  lemma {:induction false} QueueAfterAppend(q: map<string, seq<string>>, a: seq<Interaction>, b: seq<Interaction>,
                                            names: seq<string>, playerCount: nat)
    ensures QueueAfter(q, a + b, names, playerCount) == QueueAfter(QueueAfter(q, a, names, playerCount), b, names, playerCount)
  {
    if b != [] {
      assert (a + b)[..|a + b| - 1] == a + b[..|b| - 1];
      QueueAfterAppend(q, a, b[..|b| - 1], names, playerCount);
    } else {
      assert a + b == a;
    }
  }

  lemma {:induction false} FirstBubblesAppend(a: seq<Interaction>, b: seq<Interaction>, names: seq<string>, playerCount: nat)
    ensures FirstBubbles(a + b, names, playerCount) == FirstBubbles(a, names, playerCount) + FirstBubbles(b, names, playerCount)
  {
    if b != [] {
      assert (a + b)[..|a + b| - 1] == a + b[..|b| - 1];
      FirstBubblesAppend(a, b[..|b| - 1], names, playerCount);
    } else {
      assert a + b == a;
    }
  }

  /** The entries of `reg` visited in `order` whose task has not finished. */
  function Retained(reg: map<string, Task>, order: seq<string>, outcomes: map<string, TaskOutcome>): map<string, Task>
    requires forall k :: k in order ==> k in reg
  {
    if order == [] then map[]
    else
      var k := order[|order| - 1];
      var kept := Retained(reg, order[..|order| - 1], outcomes);
      if k in outcomes then kept else kept[k := reg[k]]
  }

  /** Visiting every key keeps exactly the unfinished entries, unchanged. */
  lemma {:induction false} RetainedSpec(reg: map<string, Task>, order: seq<string>, outcomes: map<string, TaskOutcome>)
    requires forall k :: k in order ==> k in reg
    ensures Retained(reg, order, outcomes) == map k | k in reg && k in order && k !in outcomes :: reg[k]
  {
    if order != [] {
      var init := order[..|order| - 1];
      assert forall k :: k in init ==> k in order;
      RetainedSpec(reg, init, outcomes);
      assert forall k :: k in order <==> k in init || k == order[|order| - 1];
    }
  }

  /** The NPCs' message histories, in query order. */
  ghost function Histories(npcs: seq<Npc>): seq<seq<ChatMessage>>
    reads npcs
  {
    seq(|npcs|, i requires 0 <= i < |npcs| reads npcs => npcs[i].messageHistory)
  }

  /** The NPCs' inventories, in query order. */
  ghost function Inventories(npcs: seq<Npc>): seq<Inventory>
    reads npcs
  {
    seq(|npcs|, i requires 0 <= i < |npcs| reads npcs => npcs[i].items)
  }

  /** Each history `h[i]` extended with the Assistant turns the NPC called
      `names[i]` receives from `replies`. */
  function WithTurns(h: seq<seq<ChatMessage>>, names: seq<string>, replies: seq<Interaction>, playerCount: nat)
    : (r: seq<seq<ChatMessage>>)
    requires |h| == |names|
    ensures |r| == |h|
  {
    seq(|h|, i requires 0 <= i < |h| => h[i] + AssistantTurns(replies, names[i], playerCount))
  }

  lemma WithNoTurns(h: seq<seq<ChatMessage>>, names: seq<string>, playerCount: nat)
    requires |h| == |names|
    ensures WithTurns(h, names, [], playerCount) == h
  {
    forall i | 0 <= i < |h|
      ensures WithTurns(h, names, [], playerCount)[i] == h[i]
    {
      assert h[i] + [] == h[i];
    }
  }

  /** Replies handled in two batches reach the histories as one batch would. */
  lemma WithTurnsAppend(h: seq<seq<ChatMessage>>, names: seq<string>, a: seq<Interaction>, b: seq<Interaction>,
                        playerCount: nat)
    requires |h| == |names|
    ensures WithTurns(WithTurns(h, names, a, playerCount), names, b, playerCount)
         == WithTurns(h, names, a + b, playerCount)
  {
    forall i | 0 <= i < |h|
      ensures WithTurns(WithTurns(h, names, a, playerCount), names, b, playerCount)[i]
           == WithTurns(h, names, a + b, playerCount)[i]
    {
      AssistantTurnsAppend(a, b, names[i], playerCount);
    }
  }

  /** A single reply reaches the histories of the NPCs carrying its sender's name. */
  lemma AssistantTurnsSingle(content: Interaction, name: string, playerCount: nat)
    ensures AssistantTurns([content], name, playerCount)
         == if content.senderId == name then Repeat([ChatMessage(Assistant, content.message)], playerCount) else []
  {
    assert [content][..0] == [];
  }

  /** The histories after one pass over the NPCs for a single reply. */
  lemma AnsweredOnce(npcs: seq<Npc>, h0: seq<seq<ChatMessage>>, content: Interaction)
    requires |h0| == |npcs|
    requires forall i :: 0 <= i < |npcs| ==>
               npcs[i].messageHistory
               == h0[i] + (if Names(npcs)[i] == content.senderId then [ChatMessage(Assistant, content.message)] else [])
    ensures Histories(npcs) == WithTurns(h0, Names(npcs), [content], 1)
  {
    assert Repeat([ChatMessage(Assistant, content.message)], 1) == [ChatMessage(Assistant, content.message)];
    forall i | 0 <= i < |npcs|
      ensures Histories(npcs)[i] == WithTurns(h0, Names(npcs), [content], 1)[i]
    {
      AssistantTurnsSingle(content, npcs[i].name, 1);
    }
  }

  /** With no players, no reply reaches any history. */
  lemma WithTurnsNoPlayers(h: seq<seq<ChatMessage>>, names: seq<string>, content: Interaction)
    requires |h| == |names|
    ensures WithTurns(h, names, [content], 0) == h
  {
    forall i | 0 <= i < |h|
      ensures WithTurns(h, names, [content], 0)[i] == h[i]
    {
      AssistantTurnsSingle(content, names[i], 0);
      assert h[i] + [] == h[i];
    }
  }

  /** One more player adds one more Assistant turn for the sender. */
  lemma WithTurnsOneMore(h: seq<seq<ChatMessage>>, names: seq<string>, content: Interaction, p: nat)
    requires |h| == |names|
    ensures WithTurns(WithTurns(h, names, [content], p), names, [content], 1) == WithTurns(h, names, [content], p + 1)
  {
    var turn := ChatMessage(Assistant, content.message);
    assert Repeat([turn], 1) == [turn];
    forall i | 0 <= i < |h|
      ensures WithTurns(WithTurns(h, names, [content], p), names, [content], 1)[i]
           == WithTurns(h, names, [content], p + 1)[i]
    {
      AssistantTurnsSingle(content, names[i], p);
      AssistantTurnsSingle(content, names[i], 1);
      AssistantTurnsSingle(content, names[i], p + 1);
      if content.senderId == names[i] {
        assert Repeat([turn], p + 1) == Repeat([turn], p) + [turn];
      }
    }
  }

  /** The registry resource: pair key to the task answering it. */
  class AiRequestTask {
    var generatedResponse: map<string, Task>

    constructor ()
      ensures generatedResponse == map[]
    {
      generatedResponse := map[];
    }

    /** `make_ai_request`: for every request, player and NPC, in that nesting,
        the text is appended to the NPC's history as a User turn and a task is
        registered under the pair's key, replacing any earlier one. */
    method MakeAiRequest(requests: seq<ChatInput.AiRequestEvent>, players: seq<string>, npcs: seq<Npc>)
      requires forall i, j :: 0 <= i < j < |npcs| ==> npcs[i] != npcs[j]
      modifies this, npcs
      ensures generatedResponse == RegisterRequests(old(generatedResponse), requests, players, Names(npcs))
      ensures forall i :: 0 <= i < |npcs| ==>
                npcs[i].messageHistory == old(npcs[i].messageHistory) + UserTurns(requests, |players|)
                && npcs[i].items == old(npcs[i].items)
    {
      if requests == [] {
        return;
      }
      for r := 0 to |requests|
        invariant generatedResponse == RegisterRequests(old(generatedResponse), requests[..r], players, Names(npcs))
        invariant forall i :: 0 <= i < |npcs| ==>
                    npcs[i].messageHistory == old(npcs[i].messageHistory) + UserTurns(requests[..r], |players|)
                    && npcs[i].items == old(npcs[i].items)
      {
        assert requests[..r + 1][..r] == requests[..r];
        SubmitForPlayers(requests[r].msg, players, npcs);
      }
      assert requests[..|requests|] == requests;
    }

    /** One request, for every player. */
    method SubmitForPlayers(msg: string, players: seq<string>, npcs: seq<Npc>)
      requires forall i, j :: 0 <= i < j < |npcs| ==> npcs[i] != npcs[j]
      modifies this, npcs
      ensures generatedResponse == RegisterPlayers(old(generatedResponse), msg, players, Names(npcs))
      ensures forall i :: 0 <= i < |npcs| ==>
                npcs[i].messageHistory == old(npcs[i].messageHistory) + Repeat([ChatMessage(User, msg)], |players|)
                && npcs[i].items == old(npcs[i].items)
    {
      for p := 0 to |players|
        invariant generatedResponse == RegisterPlayers(old(generatedResponse), msg, players[..p], Names(npcs))
        invariant forall i :: 0 <= i < |npcs| ==>
                    npcs[i].messageHistory == old(npcs[i].messageHistory) + Repeat([ChatMessage(User, msg)], p)
                    && npcs[i].items == old(npcs[i].items)
      {
        assert players[..p + 1][..p] == players[..p];
        Submit(msg, players[p], npcs);
      }
      assert players[..|players|] == players;
    }

    /** One request from one player, to every NPC in turn. */
    method Submit(msg: string, player: string, npcs: seq<Npc>)
      requires forall i, j :: 0 <= i < j < |npcs| ==> npcs[i] != npcs[j]
      modifies this, npcs
      ensures generatedResponse == RegisterNpcs(old(generatedResponse), msg, player, Names(npcs))
      ensures forall i :: 0 <= i < |npcs| ==>
                npcs[i].messageHistory == old(npcs[i].messageHistory) + [ChatMessage(User, msg)]
                && npcs[i].items == old(npcs[i].items)
    {
      var names := Names(npcs);
      for j := 0 to |npcs|
        invariant generatedResponse == RegisterNpcs(old(generatedResponse), msg, player, names[..j])
        invariant forall i :: 0 <= i < |npcs| ==>
                    npcs[i].messageHistory == old(npcs[i].messageHistory) + (if i < j then [ChatMessage(User, msg)] else [])
                    && npcs[i].items == old(npcs[i].items)
      {
        assert names[..j + 1][..j] == names[..j];
        var npc := npcs[j];
        npc.messageHistory := npc.messageHistory + [ChatMessage(User, msg)];
        generatedResponse := generatedResponse[PairKey(player, npc.name) := Task(Outgoing(player, npc.name, msg))];
      }
      assert names[..|npcs|] == names;
    }

    /** `get_ai_response`: visits the registry in `order` (the map's iteration
        order) and keeps exactly the keys whose task has not finished, given
        by `outcomes`. Each completed task's interaction goes, as an Assistant
        turn and as speech bubbles, to every NPC named as its sender, once per
        player; failed tasks are dropped silently. */
    method GetAiResponse(order: seq<string>, outcomes: map<string, TaskOutcome>, playerCount: nat,
                         npcs: seq<Npc>, bubbles: ChatBubble)
      returns (spawned: seq<(string, string)>)
      requires forall k :: k in generatedResponse <==> k in order
      requires forall i, j :: 0 <= i < j < |order| ==> order[i] != order[j]
      requires forall i, j :: 0 <= i < j < |npcs| ==> npcs[i] != npcs[j]
      modifies this, npcs, bubbles
      ensures generatedResponse == Retained(old(generatedResponse), order, outcomes)
      ensures Histories(npcs) == WithTurns(old(Histories(npcs)), Names(npcs), Replies(order, outcomes), playerCount)
      ensures Inventories(npcs) == old(Inventories(npcs))
      ensures bubbles.queue == QueueAfter(old(bubbles.queue), Replies(order, outcomes), Names(npcs), playerCount)
      ensures spawned == FirstBubbles(Replies(order, outcomes), Names(npcs), playerCount)
    {
      var kept: map<string, Task> := map[];
      ghost var replies: seq<Interaction> := [];
      ghost var h0 := Histories(npcs);
      WithNoTurns(h0, Names(npcs), playerCount);
      spawned := [];
      for i := 0 to |order|
        invariant generatedResponse == old(generatedResponse)
        invariant kept == Retained(generatedResponse, order[..i], outcomes)
        invariant replies == Replies(order[..i], outcomes)
        invariant Histories(npcs) == WithTurns(h0, Names(npcs), replies, playerCount)
        invariant Inventories(npcs) == old(Inventories(npcs))
        invariant bubbles.queue == QueueAfter(old(bubbles.queue), replies, Names(npcs), playerCount)
        invariant spawned == FirstBubbles(replies, Names(npcs), playerCount)
      {
        assert order[..i + 1][..i] == order[..i];
        var key := order[i];
        ghost var reply := Reply(key, outcomes);
        QueueAfterAppend(old(bubbles.queue), replies, reply, Names(npcs), playerCount);
        FirstBubblesAppend(replies, reply, Names(npcs), playerCount);
        WithTurnsAppend(h0, Names(npcs), replies, reply, playerCount);
        var retain, shown := PollEntry(key, outcomes, playerCount, npcs, bubbles);
        spawned := spawned + shown;
        replies := replies + reply;
        if retain {
          kept := kept[key := generatedResponse[key]];
        }
      }
      assert order[..|order|] == order;
      generatedResponse := kept;
    }

    /** The body of the `retain` closure for one registry entry: whether the
        entry stays, and the bubbles spawned for a completed task. */
    static method PollEntry(key: string, outcomes: map<string, TaskOutcome>, playerCount: nat,
                            npcs: seq<Npc>, bubbles: ChatBubble)
      returns (retain: bool, spawned: seq<(string, string)>)
      requires forall i, j :: 0 <= i < j < |npcs| ==> npcs[i] != npcs[j]
      modifies npcs, bubbles
      ensures retain <==> key !in outcomes
      ensures Histories(npcs) == WithTurns(old(Histories(npcs)), Names(npcs), Reply(key, outcomes), playerCount)
      ensures Inventories(npcs) == old(Inventories(npcs))
      ensures bubbles.queue == QueueAfter(old(bubbles.queue), Reply(key, outcomes), Names(npcs), playerCount)
      ensures spawned == FirstBubbles(Reply(key, outcomes), Names(npcs), playerCount)
    {
      ghost var h0 := Histories(npcs);
      ghost var names := Names(npcs);
      retain := key !in outcomes;
      spawned := [];
      if key in outcomes && outcomes[key].Completed? {
        var content := DecodeReply(outcomes[key].decoded);
        assert Reply(key, outcomes) == [content];
        assert Reply(key, outcomes)[..0] == [];
        spawned := HandleReply(content, playerCount, npcs, bubbles);
      } else {
        WithNoTurns(h0, names, playerCount);
      }
    }

    /** The handling of one completed interaction `content`. */
    static method HandleReply(content: Interaction, playerCount: nat, npcs: seq<Npc>, bubbles: ChatBubble)
      returns (spawned: seq<(string, string)>)
      requires forall i, j :: 0 <= i < j < |npcs| ==> npcs[i] != npcs[j]
      modifies npcs, bubbles
      ensures Histories(npcs) == WithTurns(old(Histories(npcs)), Names(npcs), [content], playerCount)
      ensures Inventories(npcs) == old(Inventories(npcs))
      ensures bubbles.queue == Enqueued(old(bubbles.queue), content.senderId,
                Repeat(QueuedSections(content.message), playerCount * Count(Names(npcs), content.senderId)))
      ensures spawned == Repeat([(content.senderId, FirstBubble(content.message))],
                                playerCount * Count(Names(npcs), content.senderId))
    {
      var c := Count(Names(npcs), content.senderId);
      ghost var q0 := bubbles.queue;
      ghost var secs := QueuedSections(content.message);
      ghost var first := (content.senderId, FirstBubble(content.message));
      ghost var h0 := Histories(npcs);
      WithTurnsNoPlayers(h0, Names(npcs), content);
      spawned := [];
      for p := 0 to playerCount
        invariant Histories(npcs) == WithTurns(h0, Names(npcs), [content], p)
        invariant Inventories(npcs) == old(Inventories(npcs))
        invariant bubbles.queue == Enqueued(q0, content.senderId, Repeat(secs, p * c))
        invariant spawned == Repeat([first], p * c)
      {
        var shown := ReplyToNpcs(content, npcs, bubbles);
        OnePlayerMore(q0, content.senderId, secs, [first], p, c);
        WithTurnsOneMore(h0, Names(npcs), content, p);
        spawned := spawned + shown;
      }
    }

    /** The reply reaching one NPC: an Assistant turn, its sections queued
        under the NPC's name, and its first bubble shown. */
    static method Answer(npc: Npc, message: string, bubbles: ChatBubble) returns (shown: (string, string))
      modifies npc`messageHistory, bubbles
      ensures npc.messageHistory == old(npc.messageHistory) + [ChatMessage(Assistant, message)]
      ensures bubbles.queue == Enqueued(old(bubbles.queue), npc.name, QueuedSections(message))
      ensures shown == (npc.name, FirstBubble(message))
    {
      npc.messageHistory := npc.messageHistory + [ChatMessage(Assistant, message)];
      bubbles.PushSections(npc.name, message);
      shown := (npc.name, FirstBubble(message));
    }

    /** The inner loop over NPCs for one player. */
    static method ReplyToNpcs(content: Interaction, npcs: seq<Npc>, bubbles: ChatBubble)
      returns (spawned: seq<(string, string)>)
      requires forall i, j :: 0 <= i < j < |npcs| ==> npcs[i] != npcs[j]
      modifies npcs, bubbles
      ensures Histories(npcs) == WithTurns(old(Histories(npcs)), Names(npcs), [content], 1)
      ensures Inventories(npcs) == old(Inventories(npcs))
      ensures bubbles.queue == Enqueued(old(bubbles.queue), content.senderId,
                Repeat(QueuedSections(content.message), Count(Names(npcs), content.senderId)))
      ensures spawned == Repeat([(content.senderId, FirstBubble(content.message))], Count(Names(npcs), content.senderId))
    {
      var names := Names(npcs);
      ghost var secs := QueuedSections(content.message);
      ghost var first := (content.senderId, FirstBubble(content.message));
      ghost var q0 := bubbles.queue;
      ghost var c: nat := 0;
      ghost var h0, inv0 := Histories(npcs), Inventories(npcs);
      ghost var turn := ChatMessage(Assistant, content.message);
      spawned := [];
      for j := 0 to |npcs|
        invariant forall i :: 0 <= i < |npcs| ==>
                    npcs[i].messageHistory == h0[i] + (if i < j && names[i] == content.senderId then [turn] else [])
                    && npcs[i].items == inv0[i]
        invariant c == Count(names[..j], content.senderId)
        invariant bubbles.queue == Enqueued(q0, content.senderId, Repeat(secs, c))
        invariant spawned == Repeat([first], c)
      {
        CountStep(names, j, content.senderId);
        EnqueueOneMore(q0, content.senderId, secs, c);
        var shown := AnswerIfSender(npcs[j], content, bubbles);
        spawned := spawned + shown;
        if names[j] == content.senderId {
          c := c + 1;
        }
      }
      assert names[..|npcs|] == names;
      AnsweredOnce(npcs, h0, content);
      assert Inventories(npcs) == inv0;
    }

    /** The body of the inner loop: only an NPC carrying the sender's name
        answers. */
    static method AnswerIfSender(npc: Npc, content: Interaction, bubbles: ChatBubble) returns (shown: seq<(string, string)>)
      modifies npc`messageHistory, bubbles
      ensures npc.messageHistory == old(npc.messageHistory)
                + (if npc.name == content.senderId then [ChatMessage(Assistant, content.message)] else [])
      ensures bubbles.queue == if npc.name == content.senderId
                               then Enqueued(old(bubbles.queue), npc.name, QueuedSections(content.message))
                               else old(bubbles.queue)
      ensures shown == if npc.name == content.senderId then [(npc.name, FirstBubble(content.message))] else []
    {
      shown := [];
      if npc.name == content.senderId {
        var one := Answer(npc, content.message, bubbles);
        shown := [one];
      }
    }
  }
}
