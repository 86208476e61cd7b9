# rpg-game: a verified model of the dialogue core

This project models the core of a small Bevy role-playing game in Dafny. In the
game, a player walks up to non-player characters (NPCs), types a line of
dialogue, and has it answered by a language model. The model covers these parts:

- **Typing a line** (`ChatInput`). Keyboard events drive a typing flag and a
  text buffer. Space next to an NPC starts typing, Enter submits the line as
  an AI request, Escape cancels, and Backspace and characters edit the line.
  Every switch of typing on or off is announced as a toggle event.
- **Moving** (`Movement`). The movement system reads the toggle events into a
  "can move" latch. While the latch is set, it writes a force of 15 in the
  held W/A/S/D directions to every player.
- **Asking the NPCs** (`Requests`). `make_ai_request` appends each request to
  every NPC's history as a User turn. It registers one background task per
  (player, NPC) pair under the key `player-npc`.
- **Polling the answers** (`Requests`). `get_ai_response` keeps only the
  unfinished tasks. Each completed reply goes, once per player, to every NPC
  named as its sender: as an Assistant turn, as a first speech bubble, and as
  the reply's remaining sections queued on that speaker.
- **Sectioning and bubbles** (`Bubbles`). A reply is cut into
  `max(1, len/200)` sections. `bubbling_text` replaces each expired bubble
  with the speaker's next queued section.
- **NPCs and items** (`Npcs`, `Items`). An NPC's inventory is a map from item
  to count, updated by `add_item` and `remove_item`. Its conversation history
  starts with a System persona prompt.
- **Communication** (`Communication`, `Interactions`). Chat messages, the
  `Context` cell and the interaction record exchanged with the model.

The source's objects that change in place are Dafny classes:

- `Npc`, `Context`, the keyboard handler's `InputState`, the movement
  latch, the `ChatBubble` queue resource and the `AiRequestTask` registry.
- Their methods are proved against pure specification functions: `KeyStep`
  and `Listen`, `LatchAfter`, `Enqueued`, `Bubbling`, the `Register*` folds,
  `Retained`, `WithTurns`, `QueueAfter` and `FirstBubbles`.
- The properties the game relies on are proved as lemmas about those
  functions.

Things the game takes from the outside world become inputs:

- The language model's answer to each task arrives as `outcomes`, a map from
  registry key to `Completed(decoded reply or None)` or `Failed`. Keys not in
  the map are still running.
- The order in which a `HashMap` is visited is the `order` argument (a list
  of the registry's keys). `add_item` picks the matching entry with `:|`.
- Which player–NPC pairs are within talking distance is `near`. Which bubble
  timers ran out this tick is each bubble's `justFinished`.
- Players appear only as names or as a count, the only things the core uses
  of them.

Three behaviours of the inventory code are kept as they are:

- `add_item` adds any amount, zero and negative included.
- `remove_item` reports success and drops the entry even when the stock is
  smaller than the amount (`RemoveInsufficientStock`).
- Items are map keys by all four fields, not by name alone
  (`SameNameDistinctKeys`). The inventory code matches entries by name
  itself, so the unique-name property is an invariant that `add_item` and
  `remove_item` preserve (`AddPreservesUniqueNames`,
  `RemovePreservesUniqueNames`).

## Model

| member | source | states |
|---|---|---|
| Items.NewItem | src/item.rs:22-30 | the item carries exactly the four given fields |
| Items.ItemTypeCases | src/item.rs:1-8 | every item type is one of Currency, Food, Weapon, Armor, Misc |
| Items.NewItemInjective | src/item.rs:10-20 | two items are equal exactly when all four fields are (derived equality) |
| Items.SameNameDistinctKeys | src/item.rs:10-20 | items sharing a name but differing in description are two distinct map keys |
| Communication.Context.constructor | src/communication.rs:6-10 | a new context holds nothing |
| Communication.Context.SetContext | src/communication.rs:12-14 | after setting, reading the context yields exactly the value set |
| Communication.SetTwiceKeepsLast | src/communication.rs:12-18 | the later of two sets wins, and reading does not change the cell |
| Npcs.PersonaPromptFields | src/npc/npc.rs:21-74 | the System prompt opens with the name introduction; the name, occupation and backstory each follow their introductory phrase verbatim and in that order; the reply-format instructions end it |
| Npcs.Npc.constructor | src/npc/npc.rs:20-83 | a new NPC has an empty inventory and a history of one System turn holding its persona prompt |
| Npcs.Npc.SetItems | src/npc/npc.rs:88-90 | the inventory becomes exactly the given map |
| Npcs.Npc.AddItem | src/npc/npc.rs:93-101 | if some entry has the item's name, exactly one such entry grows by `amount` and nothing else changes; otherwise the item is inserted with `amount`; under unique names the result is `Added` |
| Npcs.Added | src/npc/npc.rs:93-101 | the entry carrying the name grows by `amount`, or the item is inserted; entries with other names keep their counts |
| Npcs.AddPreservesUniqueNames | src/npc/npc.rs:93-101 | adding keeps at most one entry per name |
| Npcs.AddPreservesPositive | src/npc/npc.rs:93-101 | adding a positive amount keeps every count positive |
| Npcs.Removed | src/npc/npc.rs:109-117 | entries with other names are kept; an entry with the name stays, reduced by `amount`, exactly when its new count is positive |
| Npcs.RemoveItemResult | src/npc/npc.rs:104-119 | the result is false and the map unchanged exactly when no entry has the name; otherwise true and the rebuilt map |
| Npcs.Npc.RemoveItem | src/npc/npc.rs:104-119 | the returned flag and the new inventory are `RemoveItemResult` of the old inventory |
| Npcs.RemovePreservesUniqueNames | src/npc/npc.rs:104-119 | removing keeps at most one entry per name |
| Npcs.RemovePreservesPositive | src/npc/npc.rs:113-116 | removing never leaves a non-positive count, whatever the amount |
| Npcs.RemoveInsufficientStock | src/npc/npc.rs:113-118 | removing more than the stock still reports true and drops the entry |
| Npcs.RemoveWithinStock | src/npc/npc.rs:113-118 | removing less than the stock reports true and leaves exactly the difference |
| Npcs.AddThenRemove | src/npc/npc.rs:93-119 | on an inventory with unique names and positive counts, adding and then removing the same positive amount restores it and reports true |
| Npcs.Npc.Talk | src/npc/npc.rs:134-143 | the outgoing turn and then the reply are appended to the history, the reply's text is returned, and the System-first invariant is kept |
| ChatInput.NearToggles | src/player/actions_plugin.rs:309-316 | every emitted toggle is "on", and none is emitted exactly when no pair is near |
| ChatInput.NearTogglesCount | src/player/actions_plugin.rs:309-316 | one toggle is emitted per near player–NPC pair |
| ChatInput.ReleasesIgnored | src/player/actions_plugin.rs:284-287 | a released key changes nothing and emits nothing |
| ChatInput.IdleKeysIgnored | src/player/actions_plugin.rs:288-340 | while not typing, every key but Space changes nothing and emits nothing |
| ChatInput.EnterSubmits | src/player/actions_plugin.rs:289-304 | Enter on a non-empty line emits that line as a request and a toggle "off", clears the buffer and stops typing |
| ChatInput.EnterOnEmptyLineIgnored | src/player/actions_plugin.rs:293-296 | Enter on an empty line does nothing |
| ChatInput.SpaceWhileTypingAppends | src/player/actions_plugin.rs:305-307 | Space while typing appends a blank |
| ChatInput.SpaceWhileIdle | src/player/actions_plugin.rs:308-317 | Space while idle starts typing exactly when some pair is near, emitting one "on" toggle per near pair and leaving the buffer as it was |
| ChatInput.BackspaceDropsLast | src/player/actions_plugin.rs:319-324 | Backspace while typing drops the last character, or nothing on an empty line |
| ChatInput.EscapeCancels | src/player/actions_plugin.rs:325-332 | Escape while typing clears the line, stops typing and emits a toggle "off" and no request |
| ChatInput.CharacterAppends | src/player/actions_plugin.rs:333-338 | a character key while typing appends its text |
| ChatInput.RequestsAreNonEmpty | src/player/actions_plugin.rs:294-301 | every request emitted by a batch carries a non-empty line |
| ChatInput.RequestsComeWithToggleOff | src/player/actions_plugin.rs:301-303 | a batch never emits more requests than "off" toggles |
| ChatInput.IdleWithoutSpaceIgnored | src/player/actions_plugin.rs:283-341 | while idle, a batch with no pressed Space changes nothing and emits nothing |
| ChatInput.InputState.constructor | src/player/actions_plugin.rs:68-72 | the handler starts idle with an empty line |
| ChatInput.InputState.ListenKeyboardInputEvents | src/player/actions_plugin.rs:273-342 | the new typing flag and buffer, and the requests and toggles emitted in order, are `Listen` of the old state and the events |
| ChatInput.InputState.HandleKey | src/player/actions_plugin.rs:284-340 | one event moves the state and emits events exactly as `KeyStep` says |
| ChatInput.InputState.StartTyping | src/player/actions_plugin.rs:308-317 | the toggles emitted are one "on" per near pair, and typing starts exactly when there is one |
| Movement.DirectionVector | src/player/movement_plugin.rs:55-70 | x is -1 exactly when W without S and +1 exactly when S without W; z is +1 exactly when A without D and -1 exactly when D without A; opposite keys cancel; y is 0 |
| Movement.MovementForce | src/player/movement_plugin.rs:50-53 | y is 0; x is -15 exactly when W is held without S and 15 exactly when S is held without W; z is 15 exactly when A is held without D and -15 exactly when D is held without A; otherwise the component is 0, and the force is zero exactly when opposite keys balance |
| Movement.LatchAfter | src/player/movement_plugin.rs:27-29 | after a batch of toggles the latch is the negation of the last one, or unchanged for an empty batch |
| Movement.LatchBatches | src/player/movement_plugin.rs:27-29 | reading two batches in turn gives the same latch as reading them as one |
| Movement.KeyStepLatch | src/player/actions_plugin.rs:283-341 | the toggles of one keyboard event move a latch that agreed with the typing flag to the new flag's negation |
| Movement.LatchTracksTyping | src/player/movement_plugin.rs:27-33 | fed with the keyboard handler's toggles, the latch says "can move" exactly when the player is not typing |
| Movement.PlayerMovementState.constructor | src/player/movement_plugin.rs:25 | movement starts enabled |
| Movement.PlayerMovementState.Update | src/player/movement_plugin.rs:26-38 | the latch becomes `LatchAfter` of the toggles; if it allows movement every player's force is `MovementForce` of the keys, otherwise no force is touched |
| Bubbles.Sections | src/player/actions_plugin.rs:156 | a reply always gets at least one section |
| Bubbles.SectionGeometry | src/player/actions_plugin.rs:155-158 | the sections tile the reply with a remainder smaller than their number; replies of 200 or more characters get sections of 200 to 399 characters; replies under 400 characters get one section |
| Bubbles.FirstBubble | src/player/actions_plugin.rs:173 | a reply under 400 characters is shown whole in its first bubble |
| Bubbles.SectionAt | src/player/actions_plugin.rs:159-165 | the slices the sectioning loop takes are within the reply, and each is the queued section at that position |
| Bubbles.ChunkLayout | src/player/actions_plugin.rs:159-165 | chunk `j` starts at `(j + 1) * section_size`; every chunk but the last is exactly `section_size` long; the last ends at the reply's end and is shorter than `section_size + sections`; no chunk is under 200 characters |
| Bubbles.QueuedSections | src/player/actions_plugin.rs:159-165 | every queued section but the last is its chunk plus "...", and the last is its bare chunk |
| Bubbles.ShortReplyOneBubble | src/player/actions_plugin.rs:155-173 | a reply under 400 characters shows whole and queues nothing |
| Bubbles.ChunksCoverSuffix | src/player/actions_plugin.rs:159-165 | the chunks from any position on, concatenated, are the reply from that section's start to its end |
| Bubbles.Reassemble | src/player/actions_plugin.rs:155-173 | the first bubble followed by the queued chunks is exactly the reply: nothing lost, nothing repeated |
| Bubbles.EnqueuedSpec | src/player/actions_plugin.rs:167 | pushing sections changes only the speaker's queue: it grows by the sections, and a speaker without an entry starts with the first section twice |
| Bubbles.EnqueuedAppend | src/player/actions_plugin.rs:159-168 | pushing sections in two runs gives the same queue as pushing them at once |
| Bubbles.FirstSectionQueuedTwice | src/player/actions_plugin.rs:167 | for a speaker with no entry and a reply of at least 400 characters, the first two queued sections are the same and one more bubble is queued than the sectioning produced |
| Bubbles.EnqueuedOnceShowsEachSection | src/player/actions_plugin.rs:167 | with an empty default entry, the queue grows by exactly the sections, a fresh speaker is shown exactly as many bubbles as there are sections, and they spell out the reply |
| Bubbles.BubblingIsFifo | src/player/actions_plugin.rs:228-253 | for each speaker, the texts shown in a tick followed by what stays queued are the old queue; no speaker gains or loses an entry |
| Bubbles.SpawnedWereQueued | src/player/actions_plugin.rs:235-250 | every bubble spawned in a tick shows a text that was queued for its own speaker |
| Bubbles.ReturnLeavesExpiredBubble | src/player/actions_plugin.rs:229-234 | with an expired bubble whose speaker has an empty queue followed by a second expired bubble, the second is not removed in that tick |
| Bubbles.ContinuingDespawnsEveryExpired | src/player/actions_plugin.rs:228-253 | with the early stop replaced by moving on, a tick removes exactly the bubbles whose timer ran out |
| Bubbles.ChatBubble.constructor | src/player/actions_plugin.rs:77 | the queue resource starts empty |
| Bubbles.ChatBubble.PushSections | src/player/actions_plugin.rs:155-168 | the sectioning loop leaves the queue as `Enqueued` of the old queue and the reply's queued sections |
| Bubbles.ChatBubble.BubblingText | src/player/actions_plugin.rs:222-254 | the new queue, the removed bubbles and the spawned bubbles are `Bubbling` of the old queue |
| Requests.PairKeyParts | src/player/actions_plugin.rs:135 | a key is the player's name, a dash, then the NPC's name |
| Requests.PairKeySamePlayer | src/player/actions_plugin.rs:135 | for one player, two NPC names give the same key exactly when they are equal |
| Requests.PairKeysCanCollide | src/player/actions_plugin.rs:135 | names containing a dash can make two different pairs share a key |
| Requests.Outgoing | src/player/actions_plugin.rs:116-121 | the task's interaction goes from the player to the NPC with the request's text and no actions |
| Requests.DecodeReply | src/player/actions_plugin.rs:128-133 | a decoded reply is used as is; otherwise the fixed "error"/"error" interaction with the diagnostic text and no actions |
| Requests.RegisterNpcsSpec | src/player/actions_plugin.rs:105-136 | after one player's request reaches every NPC, each pair key is registered with a task for its own pair and that message; other keys are untouched |
| Requests.RegisterPlayersSpec | src/player/actions_plugin.rs:104-137 | the same for every (player, NPC) pair of one request |
| Requests.RegisterRequestsSpec | src/player/actions_plugin.rs:103-138 | after a batch, every pair key is registered with a task carrying the last request's message (earlier ones replaced); other keys are untouched |
| Requests.ResubmitAddsNoEntry | src/player/actions_plugin.rs:135 | submitting again for a registered pair replaces its entry and adds none |
| Requests.Reply | src/player/actions_plugin.rs:144-149 | a task that completed yields exactly its decoded interaction (or the error interaction when decoding failed); a task still running or one that failed yields nothing |
| Requests.RetainedSpec | src/player/actions_plugin.rs:143-191 | the retained registry holds exactly the visited keys whose task has not finished, each with its task unchanged |
| Requests.AssistantTurnsFromOwnReplies | src/player/actions_plugin.rs:151-154 | every turn an NPC gains is an Assistant turn carrying the text of a reply the NPC itself sent |
| Requests.AssistantTurnsLength | src/player/actions_plugin.rs:151-154 | an NPC gains exactly one turn per player per reply it sent |
| Requests.QueueOnlyForSenders | src/player/actions_plugin.rs:151-168 | a speaker who sent none of the replies keeps its queue entry, or its lack of one, as it was |
| Requests.AssistantTurnsAppend | src/player/actions_plugin.rs:143-191 | handling replies in two runs gives the same history turns as in one |
| Requests.QueueAfterAppend | src/player/actions_plugin.rs:143-191 | handling replies in two runs gives the same bubble queue as in one |
| Requests.FirstBubblesAppend | src/player/actions_plugin.rs:143-191 | handling replies in two runs shows the same first bubbles as in one |
| Requests.WithTurnsAppend | src/player/actions_plugin.rs:143-191 | every NPC's history after two runs of replies is its history after them as one run |
| Requests.AiRequestTask.constructor | src/player/actions_plugin.rs:76 | the registry starts empty |
| Requests.AiRequestTask.MakeAiRequest | src/player/actions_plugin.rs:92-139 | the registry becomes `RegisterRequests` of the batch; every NPC's history gains each request's text once per player, in order; inventories are unchanged |
| Requests.AiRequestTask.SubmitForPlayers | src/player/actions_plugin.rs:104-137 | one request: the registry becomes `RegisterPlayers`, and every history gains the text once per player |
| Requests.AiRequestTask.Submit | src/player/actions_plugin.rs:105-136 | one request from one player: the registry becomes `RegisterNpcs`, and every history gains the text once |
| Requests.AiRequestTask.GetAiResponse | src/player/actions_plugin.rs:142-192 | the registry keeps exactly the unfinished tasks (`Retained`). Every NPC's history gains the Assistant turns of the completed replies it sent (`WithTurns`). The bubble queue and the first bubbles shown are `QueueAfter` and `FirstBubbles` of those replies. Inventories are unchanged |
| Requests.AiRequestTask.PollEntry | src/player/actions_plugin.rs:143-191 | an entry is kept exactly when its task has not finished, and a finished entry's effects are those of its one reply |
| Requests.AiRequestTask.HandleReply | src/player/actions_plugin.rs:151-187 | one reply reaches the histories, the queue and the shown bubbles once per player and per NPC carrying the sender's name |
| Requests.AiRequestTask.ReplyToNpcs | src/player/actions_plugin.rs:152-186 | one pass over the NPCs: each NPC named as the sender gains the Assistant turn, a queued copy of the sections and a first bubble |
| Requests.AiRequestTask.AnswerIfSender | src/player/actions_plugin.rs:153-185 | an NPC not named as the sender is left alone; the sender gets the turn, the queued sections and the bubble |
| Requests.AiRequestTask.Answer | src/player/actions_plugin.rs:154-184 | the NPC's history gains the Assistant turn, its sections are queued under its name, and its first bubble is shown |

## Left out

- Rendering is left out: text bundles, billboards, fonts, transforms, the bubble-follow system (`make_bubbles_follow_entities`) and the bottom-left input text (`setup_scene`). The model keeps what is shown as (speaker, text) pairs.
- The player's own speech bubble, spawned when Enter submits a line, is left out for the same reason.
- Timers and time are left out. Each bubble's `justFinished` says whether its timer ran out this tick. The model does not capture that the bubbles after an early stop in `bubbling_text` are not ticked.
- Distances between players and NPCs are left out. The `near` list gives, per player–NPC pair, whether the pair is closer than 2.0.
- The HTTP call to the language model, the Tokio runtime and `JoinHandle` polling are left out. A task's result is the `outcomes` input at poll time. A task that panicked is `Failed` and is dropped without effect, as the source's `Err` branch is.
- JSON encoding and decoding are left out. A reply that parsed is `Some(interaction)` and one that did not is `None`. Appending the NPC's inventory snapshot to the outgoing message is not modelled.
- The clone of the NPC that each background task talks to is left out. Its history and inventory are not kept in the task, and the turns the task's own `talk` adds to that clone are not modelled; the registered task keeps only its outgoing interaction.
- Npcs.PersonaPrompt: the long JSON example in the System prompt is shortened to a one-sentence instruction. The persona part is kept word for word.
- ChatInput.KeyStep: Enter calls `player_query.single_mut()` (src/player/actions_plugin.rs:299), which panics unless exactly one player exists. The model emits the request for any number of players, and the rest of the model allows any number of players.
- ChatInput.EnterSubmits: states the Enter step without the single-player requirement of `single_mut`, as `ChatInput.KeyStep` above.
- Npcs.Removed: counts are unbounded integers; the 32-bit arithmetic of `value - amount` (src/npc/npc.rs:113,116) is not modelled, so an underflow that the source would panic on or wrap is not captured.
- Npcs.Npc.AddItem: counts are unbounded integers; the 32-bit overflow of `*value += amount` is not modelled.
- Bubbles.Sections: lengths are in characters, which equal the source's byte lengths only for ASCII text. A slice at a non-character boundary of multi-byte text panics in the source; this is not modelled.
- `Interaction.actions` (the `Give` actions) are carried but never applied, as in the source core.
- `print_self`, `info!` and `println!` output are left out.
- `Npc::get_items` is the function `Npc.GetItems`. It has no contract of its own beyond returning the field.
- `Context::get_context` is the function `Context.GetContext`. Its behaviour is stated through the contracts of `Context.SetContext` and `SetTwiceKeepsLast`.
- src/player.rs, src/talk.rs, src/npc.rs, src/llm.rs and tts are not part of this model.

## Findings

| source | as written | input that shows it | evidently intended | confidence | as-written member | corrected member |
|---|---|---|---|---|---|---|
| src/player/actions_plugin.rs:232-234 | an expired bubble whose speaker has an existing but empty queue `return`s from the whole system, so the bubbles after it are neither ticked nor removed this tick | bubbles [Hank expired, Bob expired] with queue {Hank: []}: only Hank's bubble is removed | `continue` with the next bubble | medium, not executed | Bubbles.ReturnLeavesExpiredBubble | Bubbles.ContinuingDespawnsEveryExpired |
| src/player/actions_plugin.rs:167 | `or_insert(VecDeque::from(vec![section]))` followed by `push_back(section)` queues a fresh speaker's first section twice | a 400-character reply from an NPC with no queue entry: sections are [s1] and the queue becomes [s1, s1] | `or_insert` with an empty queue, so each section is shown once | high, not executed | Bubbles.FirstSectionQueuedTwice | Bubbles.EnqueuedOnceShowsEachSection |

The classes follow the source as written (`ChatBubble.PushSections` uses
`Enqueued`, and `ChatBubble.BubblingText` uses `Bubbling`). The corrected
definitions `EnqueuedOnce` and `BubblingContinuing` stand beside them with
their intended properties proved.
