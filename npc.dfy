/** Non-player characters: inventory bookkeeping and conversation history. */
module Npcs {
  import opened Items
  import opened Communication

  /** An inventory: item to quantity. */
  type Inventory = map<Item, int>

  /** Some entry of `m` carries the name `name`. */
  predicate HasName(m: Inventory, name: string)
  {
    exists k :: k in m && k.name == name
  }

  /** At most one entry per item name: the invariant `add_item` relies on. */
  ghost predicate UniqueNames(m: Inventory)
  {
    forall a, b :: a in m && b in m && a.name == b.name ==> a == b
  }

  /** Every quantity in `m` is positive. */
  ghost predicate AllPositive(m: Inventory)
  {
    forall k :: k in m ==> m[k] > 0
  }

  /** The inventory after adding `amount` of `item` when names are unique:
      the entry with the same name grows, otherwise `item` is inserted. */
  function Added(m: Inventory, item: Item, amount: int): (r: Inventory)
    ensures HasName(m, item.name) ==> r.Keys == m.Keys
    ensures !HasName(m, item.name) ==> r.Keys == m.Keys + {item} && r[item] == amount
    ensures forall k :: k in m && k.name != item.name ==> k in r && r[k] == m[k]
    ensures forall k :: k in m && k.name == item.name ==> k in r && r[k] == m[k] + amount
  {
    if HasName(m, item.name) then
      map k | k in m :: if k.name == item.name then m[k] + amount else m[k]
    else
      m[item := amount]
  }

  /** The map `remove_item` rebuilds: entries named `name` drop by `amount`
      and disappear once that leaves nothing positive; other entries stay. */
  function Removed(m: Inventory, name: string, amount: int): (r: Inventory)
    ensures r.Keys <= m.Keys
    ensures forall k :: k in m && k.name != name ==> k in r && r[k] == m[k]
    ensures forall k :: k in m && k.name == name ==> (k in r <==> m[k] - amount > 0)
    ensures forall k :: k in r && k.name == name ==> r[k] == m[k] - amount
  {
    map k | k in m && (k.name != name || m[k] - amount > 0) ::
      if k.name == name then m[k] - amount else m[k]
  }

  /** `remove_item` as a value: whether the name was present, and the new map. */
  function RemoveItemResult(m: Inventory, name: string, amount: int): (r: (bool, Inventory))
    ensures r.0 <==> HasName(m, name)
    ensures !r.0 ==> r.1 == m
    ensures r.0 ==> r.1 == Removed(m, name, amount)
  {
    if !HasName(m, name) then (false, m) else (true, Removed(m, name, amount))
  }

  lemma AddPreservesUniqueNames(m: Inventory, item: Item, amount: int)
    requires UniqueNames(m)
    ensures UniqueNames(Added(m, item, amount))
  {
  }

  lemma AddPreservesPositive(m: Inventory, item: Item, amount: int)
    requires AllPositive(m) && amount > 0
    ensures AllPositive(Added(m, item, amount))
  {
  }

  lemma RemovePreservesUniqueNames(m: Inventory, name: string, amount: int)
    requires UniqueNames(m)
    ensures UniqueNames(RemoveItemResult(m, name, amount).1)
  {
  }

  /** Removal never leaves a non-positive quantity behind, whatever `amount` is. */
  lemma RemovePreservesPositive(m: Inventory, name: string, amount: int)
    requires AllPositive(m)
    ensures AllPositive(RemoveItemResult(m, name, amount).1)
  {
  }

  /** Removal reports success even when the stock is smaller than `amount`:
      the entry is simply dropped. */
  lemma RemoveInsufficientStock(m: Inventory, k: Item, amount: int)
    requires k in m && m[k] < amount
    ensures RemoveItemResult(m, k.name, amount).0
    ensures k !in RemoveItemResult(m, k.name, amount).1
  {
  }

  /** Removing less than the stock leaves exactly the difference. */
  lemma RemoveWithinStock(m: Inventory, k: Item, amount: int)
    requires k in m && amount < m[k]
    ensures RemoveItemResult(m, k.name, amount).0
    ensures k in RemoveItemResult(m, k.name, amount).1 && RemoveItemResult(m, k.name, amount).1[k] == m[k] - amount
  {
  }

  /** Adding and then removing the same positive amount restores the inventory. */
  lemma {:induction false} AddThenRemove(m: Inventory, item: Item, amount: int)
    requires UniqueNames(m) && AllPositive(m) && amount > 0
    ensures RemoveItemResult(Added(m, item, amount), item.name, amount) == (true, m)
  {
    var a := Added(m, item, amount);
    var r := Removed(a, item.name, amount);
    if HasName(m, item.name) {
      var k :| k in m && k.name == item.name;
      assert HasName(a, item.name) by { assert k in a; }
      forall k' | k' in m
        ensures k' in r && r[k'] == m[k']
      {
        assert k' in a;
      }
    } else {
      assert HasName(a, item.name) by { assert item in a; }
      assert item !in r;
      forall k' | k' in m
        ensures k' in r && r[k'] == m[k']
      {
        assert k'.name != item.name;
      }
    }
    assert r.Keys == m.Keys;
    assert r == m;
  }

  /** The opening System prompt: persona, backstory and the reply format. */
  function PersonaPrompt(name: string, occupation: string, backstory: string): (p: string)
    ensures |p| > |name| + |occupation| + |backstory|
  {
    NameIntro + name + OccupationIntro + occupation + BackstoryIntro + backstory + ".\n" + ReplyFormatInstructions
  }

  /** The fixed phrases that introduce each persona field. */
  const NameIntro: string := "You are a NPC in a RPG game. Your name is "
  const OccupationIntro: string := " and you are a "
  const BackstoryIntro: string := ". This is your backstory: "

  /** The prompt opens with the name introduction; the name, occupation and
      backstory follow their introductions verbatim, in that order, and the
      reply-format instructions close it. */
  lemma PersonaPromptFields(name: string, occupation: string, backstory: string)
    ensures var p := PersonaPrompt(name, occupation, backstory);
            var i := |NameIntro|;
            var j := i + |name| + |OccupationIntro|;
            var k := j + |occupation| + |BackstoryIntro|;
            k + |backstory| + 2 + |ReplyFormatInstructions| == |p|
            && p[..i] == NameIntro
            && p[i..i + |name|] == name
            && p[i + |name|..j] == OccupationIntro
            && p[j..j + |occupation|] == occupation
            && p[j + |occupation|..k] == BackstoryIntro
            && p[k..k + |backstory|] == backstory
            && p[|p| - |ReplyFormatInstructions|..] == ReplyFormatInstructions
  {
    PartsInPlace(NameIntro, name, OccupationIntro, occupation, BackstoryIntro, backstory, ".\n", ReplyFormatInstructions);
  }

  /** Where each of eight concatenated parts sits in the whole. */
  lemma PartsInPlace<T>(a: seq<T>, b: seq<T>, c: seq<T>, d: seq<T>, e: seq<T>, f: seq<T>, g: seq<T>, h: seq<T>)
    ensures var s := a + b + c + d + e + f + g + h;
            var i, j, k := |a|, |a| + |b| + |c|, |a| + |b| + |c| + |d| + |e|;
            k + |f| + |g| + |h| == |s|
            && s[..i] == a && s[i..i + |b|] == b && s[i + |b|..j] == c && s[j..j + |d|] == d
            && s[j + |d|..k] == e && s[k..k + |f|] == f && s[|s| - |h|..] == h
  {
  }

  /** Instructions telling the model to answer with exactly one JSON interaction object. */
  const ReplyFormatInstructions: string :=
    "The communication between you as a npc and the player will be done using json objects "
    + "(sender_id, receiver_id, message, actions). Only communicate with one json object."

  class Npc {
    const name: string
    const occupation: string
    const backstory: string
    var items: Inventory
    var messageHistory: seq<ChatMessage>

    /** The conversation always opens with the System prompt. */
    ghost predicate Valid()
      reads this
    {
      |messageHistory| > 0 && messageHistory[0].role == System
    }

    /** `Npc::new`: one System turn holding the persona, and an empty inventory. */
    constructor (name: string, occupation: string, backstory: string)
      ensures Valid()
      ensures this.name == name && this.occupation == occupation && this.backstory == backstory
      ensures items == map[]
      ensures messageHistory == [ChatMessage(System, PersonaPrompt(name, occupation, backstory))]
    {
      this.name := name;
      this.occupation := occupation;
      this.backstory := backstory;
      items := map[];
      messageHistory := [ChatMessage(System, PersonaPrompt(name, occupation, backstory))];
    }

    /** Replaces the whole inventory. */
    method SetItems(newItems: Inventory)
      modifies this`items
      ensures GetItems() == newItems
    {
      items := newItems;
    }

    function GetItems(): Inventory
      reads this
    {
      items
    }

    /** `add_item`: walks the entries in the map's (unspecified) order and bumps the
        first one with the same name, or inserts `item` when none has it. */
    method AddItem(item: Item, amount: int)
      modifies this`items
      ensures HasName(old(items), item.name) ==>
                exists k :: k in old(items) && k.name == item.name
                         && items == old(items)[k := old(items)[k] + amount]
      ensures !HasName(old(items), item.name) ==> items == old(items)[item := amount]
      ensures UniqueNames(old(items)) ==> items == Added(old(items), item, amount)
    {
      var rest := items.Keys;
      while rest != {}
        invariant rest <= items.Keys && items == old(items)
        invariant forall k :: k in items && k !in rest ==> k.name != item.name
        decreases rest
      {
        var key :| key in rest;
        if key.name == item.name {
          items := items[key := items[key] + amount];
          assert UniqueNames(old(items)) ==> items == Added(old(items), item, amount);
          return;
        }
        rest := rest - {key};
      }
      assert !HasName(items, item.name);
      items := items[item := amount];
    }

    /** `remove_item`: false and no change when no entry has the name; otherwise
        the rebuilt map and true, however little stock there was. */
    method RemoveItem(item: Item, amount: int) returns (removed: bool)
      modifies this`items
      ensures (removed, items) == RemoveItemResult(old(items), item.name, amount)
    {
      if !HasName(items, item.name) {
        return false;
      }
      items := Removed(items, item.name, amount);
      removed := true;
    }

    /** `talk` with the network call replaced by its answer `reply`: the outgoing
        turn, then the reply, are appended; the reply's text is returned. */
    method Talk(message: ChatMessage, reply: ChatMessage) returns (content: string)
      modifies this`messageHistory
      ensures old(Valid()) ==> Valid()
      ensures messageHistory == old(messageHistory) + [message, reply]
      ensures content == reply.content
    {
      messageHistory := messageHistory + [message];
      messageHistory := messageHistory + [reply];
      content := reply.content;
    }
  }
}
