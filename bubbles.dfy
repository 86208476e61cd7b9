/** Splitting long replies into speech-bubble sections, and the per-speaker
    queue of sections still to be shown. */
module Bubbles {
  import opened Sequences

  /** The target number of characters per bubble. */
  const BubbleLength: nat := 200

  /** Appended to every queued section except the last. */
  const Ellipsis: string := "..."

  function Max(a: int, b: int): int
  {
    if a >= b then a else b
  }

  /** `max(1, len / 200)`: how many bubbles a reply of length `len` gets. */
  function Sections(len: nat): (n: nat)
    ensures n >= 1
  {
    Max(1, len / BubbleLength)
  }

  /** `len / sections`: the length of every bubble but the last. */
  function SectionSize(len: nat): nat
  {
    len / Sections(len)
  }

  lemma MulLeft(a: nat, b: nat, c: nat)
    requires a <= b
    ensures a * c <= b * c
  {
  }

  /** The sections tile the reply: `sections` full sections fit, the remainder
      is smaller than `sections`, and a reply of 200 or more characters gets
      sections between 200 (inclusive) and 400 (exclusive) long. */
  lemma SectionGeometry(len: nat)
    ensures Sections(len) * SectionSize(len) <= len < Sections(len) * SectionSize(len) + Sections(len)
    ensures len >= BubbleLength ==> BubbleLength <= SectionSize(len) < 2 * BubbleLength
    ensures len < 2 * BubbleLength ==> Sections(len) == 1 && SectionSize(len) == len
  {
    var n, size := Sections(len), SectionSize(len);
    assert len == n * size + len % n;
    if len >= BubbleLength {
      var q := len / BubbleLength;
      assert q == n;
      assert len == BubbleLength * q + len % BubbleLength;
      if size < BubbleLength {
        MulLeft(size, BubbleLength - 1, q);
        assert false;
      }
      if size >= 2 * BubbleLength {
        MulLeft(2 * BubbleLength, size, q);
        assert false;
      }
    }
  }

  /** The part of the reply that section `i` (1 <= i < Sections) covers,
      without any suffix; the last one runs to the end of the reply. */
  function RawChunk(msg: string, i: nat): (c: string)
    requires 1 <= i < Sections(|msg|)
  {
    var n, size := Sections(|msg|), SectionSize(|msg|);
    SectionGeometry(|msg|);
    MulLeft(i + 1, n, size);
    if i == n - 1 then msg[i * size..] else msg[i * size..(i + 1) * size]
  }

  /** What the first bubble shows: the first `section_size` characters. */
  function FirstBubble(msg: string): (b: string)
    ensures |msg| < 2 * BubbleLength ==> b == msg
  {
    SectionGeometry(|msg|);
    MulLeft(1, Sections(|msg|), SectionSize(|msg|));
    msg[..SectionSize(|msg|)]
  }

  /** The text of queued section `i`: its chunk, with "..." unless it is the last. */
  function QueuedSection(msg: string, i: nat): string
    requires 1 <= i < Sections(|msg|)
  {
    if i == Sections(|msg|) - 1 then RawChunk(msg, i) else RawChunk(msg, i) + Ellipsis
  }

  /** The bounds of section `i` and the text it is pushed as. */
  lemma SectionAt(msg: string, i: nat)
    requires 1 <= i < Sections(|msg|)
    ensures i * SectionSize(|msg|) <= |msg|
    ensures i < Sections(|msg|) - 1 ==> (i + 1) * SectionSize(|msg|) <= |msg|
    ensures i == Sections(|msg|) - 1 ==> QueuedSections(msg)[i - 1] == msg[i * SectionSize(|msg|)..]
    ensures i < Sections(|msg|) - 1 ==>
              QueuedSections(msg)[i - 1] == msg[i * SectionSize(|msg|)..(i + 1) * SectionSize(|msg|)] + Ellipsis
  {
    SectionGeometry(|msg|);
    MulLeft(i + 1, Sections(|msg|), SectionSize(|msg|));
  }

  /** The chunks after the first bubble, in order, without suffixes. */
  function RawChunks(msg: string): (cs: seq<string>)
    ensures |cs| == Sections(|msg|) - 1
    ensures forall j :: 0 <= j < |cs| ==> cs[j] == RawChunk(msg, j + 1)
  {
    seq(Sections(|msg|) - 1, j requires 0 <= j < Sections(|msg|) - 1 => RawChunk(msg, j + 1))
  }

  /** How the chunks lie in the reply: chunk `j` starts where section `j + 1`
      starts, every chunk but the last is exactly one section long, the last
      one ends with the reply and overshoots a section by less than the number
      of sections, and no chunk is under 200 characters (chunks exist only for
      replies of 400 characters or more). */
  lemma ChunkLayout(msg: string, j: nat)
    requires j < |RawChunks(msg)|
    ensures var cs, size := RawChunks(msg), SectionSize(|msg|);
            (j + 1) * size + |cs[j]| <= |msg|
            && cs[j] == msg[(j + 1) * size..(j + 1) * size + |cs[j]|]
            && (j < |cs| - 1 ==> |cs[j]| == size)
            && (j == |cs| - 1 ==> (j + 1) * size + |cs[j]| == |msg| && size <= |cs[j]| < size + Sections(|msg|))
            && BubbleLength <= |cs[j]|
  {
    var n, size, cs := Sections(|msg|), SectionSize(|msg|), RawChunks(msg);
    var start := (j + 1) * size;
    SectionGeometry(|msg|);
    MulLeft(j + 2, n, size);
    assert cs[j] == RawChunk(msg, j + 1);
    if j == |cs| - 1 {
      assert start + size == n * size;
      assert cs[j] == msg[start..];
    } else {
      assert start + size == (j + 2) * size;
      assert cs[j] == msg[start..start + size];
    }
  }

  /** The sections pushed onto the speaker's queue, in order: every one but the
      last ends in "...", and stripped of that they are the raw chunks. */
  function QueuedSections(msg: string): (qs: seq<string>)
    ensures |qs| == |RawChunks(msg)|
    ensures forall j :: 0 <= j < |qs| - 1 ==> qs[j] == RawChunks(msg)[j] + Ellipsis
    ensures |qs| > 0 ==> qs[|qs| - 1] == RawChunks(msg)[|qs| - 1]
  {
    seq(Sections(|msg|) - 1, j requires 0 <= j < Sections(|msg|) - 1 => QueuedSection(msg, j + 1))
  }

  /** A reply shorter than 400 characters fits one bubble and queues nothing. */
  lemma ShortReplyOneBubble(msg: string)
    requires |msg| < 2 * BubbleLength
    ensures FirstBubble(msg) == msg && QueuedSections(msg) == []
  {
    SectionGeometry(|msg|);
  }

  /** The chunks from `j` on cover the reply from section `j + 1` to its end. */
  lemma {:induction false} ChunksCoverSuffix(msg: string, j: nat)
    requires j < Sections(|msg|) - 1
    ensures (j + 1) * SectionSize(|msg|) <= |msg|
    ensures Concat(RawChunks(msg)[j..]) == msg[(j + 1) * SectionSize(|msg|)..]
    decreases Sections(|msg|) - j
  {
    var n, size, cs := Sections(|msg|), SectionSize(|msg|), RawChunks(msg);
    SectionGeometry(|msg|);
    MulLeft(j + 1, n, size);
    MulLeft(j + 2, n, size);
    assert cs[j..][1..] == cs[j + 1..];
    if j == n - 2 {
      assert cs[j..] == [cs[j]];
    } else {
      ChunksCoverSuffix(msg, j + 1);
      assert (j + 1) * size + size == (j + 2) * size;
      assert msg[(j + 1) * size..] == msg[(j + 1) * size..(j + 2) * size] + msg[(j + 2) * size..];
    }
  }

  /** Nothing is lost or repeated: the first bubble followed by the queued
      sections, stripped of their "...", is the whole reply. */
  lemma Reassemble(msg: string)
    ensures FirstBubble(msg) + Concat(RawChunks(msg)) == msg
  {
    var n, size := Sections(|msg|), SectionSize(|msg|);
    SectionGeometry(|msg|);
    if n == 1 {
      assert RawChunks(msg) == [];
    } else {
      ChunksCoverSuffix(msg, 0);
      assert RawChunks(msg)[0..] == RawChunks(msg);
      MulLeft(1, n, size);
    }
  }

  /** A speaker's queue after pushing `sections` one by one with
      `entry(id).or_insert([section]).push_back(section)`: a speaker without an
      entry starts with the first section, so it is queued twice. */
  function Enqueued(q: map<string, seq<string>>, id: string, sections: seq<string>): map<string, seq<string>>
  {
    if sections == [] then q
    else q[id := (if id in q then q[id] else [sections[0]]) + sections]
  }

  /** Only the speaker's queue changes: it grows by the sections, and a speaker
      without an entry starts with the first section twice. */
  lemma EnqueuedSpec(q: map<string, seq<string>>, id: string, sections: seq<string>)
    ensures var r := Enqueued(q, id, sections);
            && r.Keys == (if sections == [] then q.Keys else q.Keys + {id})
            && (forall k :: k in q && k != id ==> r[k] == q[k])
            && (id in q ==> r[id] == q[id] + sections)
            && (id !in q && sections != [] ==> r[id] == [sections[0]] + sections)
  {
  }

  /** Pushing in two runs is the same as pushing once. */
  lemma EnqueuedAppend(q: map<string, seq<string>>, id: string, a: seq<string>, b: seq<string>)
    ensures Enqueued(Enqueued(q, id, a), id, b) == Enqueued(q, id, a + b)
  {
    if a == [] {
      assert a + b == b;
    } else if b == [] {
      assert a + b == a;
    } else {
      assert (a + b)[0] == a[0];
      var x := if id in q then q[id] else [a[0]];
      var lhs, rhs := Enqueued(Enqueued(q, id, a), id, b), Enqueued(q, id, a + b);
      assert lhs[id] == (x + a) + b;
      assert rhs[id] == x + (a + b);
      assert lhs.Keys == rhs.Keys;
      assert forall k :: k in lhs ==> lhs[k] == rhs[k];
    }
  }

  /** As written, a speaker without a queue entry gets a reply's first queued
      section twice in a row: a 400-character reply, shown as two bubbles by
      its sectioning, is shown as three. */
  lemma FirstSectionQueuedTwice(q: map<string, seq<string>>, id: string, msg: string)
    requires id !in q && |msg| >= 2 * BubbleLength
    ensures var queued := Enqueued(q, id, QueuedSections(msg))[id];
            |queued| == Sections(|msg|) && queued[0] == queued[1]
  {
    SectionGeometry(|msg|);
    assert Sections(|msg|) >= 2;
  }

  /** The push with an empty entry as the default: every section is queued once. */
  function EnqueuedOnce(q: map<string, seq<string>>, id: string, sections: seq<string>): map<string, seq<string>>
  {
    if sections == [] then q
    else q[id := (if id in q then q[id] else []) + sections]
  }

  /** With the corrected push, a speaker's queue grows by exactly the sections,
      so a fresh speaker's bubbles are the first bubble and then each queued
      section once: `Sections(|msg|)` bubbles in all, and stripped of their
      "..." they spell out the whole reply. */
  lemma EnqueuedOnceShowsEachSection(q: map<string, seq<string>>, id: string, msg: string)
    ensures var r := EnqueuedOnce(q, id, QueuedSections(msg));
            && (forall k :: k in q && k != id ==> k in r && r[k] == q[k])
            && (QueuedSections(msg) != [] ==> r[id] == (if id in q then q[id] else []) + QueuedSections(msg))
            && (id !in q && QueuedSections(msg) != [] ==> 1 + |r[id]| == Sections(|msg|))
            && FirstBubble(msg) + Concat(RawChunks(msg)) == msg
  {
    Reassemble(msg);
  }

  /** A speech bubble on screen: whose it is and whether its display timer
      has just run out this tick. */
  datatype Bubble = Bubble(id: string, justFinished: bool)

  /** The queue after a tick, which bubbles (by position) were removed, and the
      (speaker, text) bubbles spawned in their place. */
  datatype BubbleTick = BubbleTick(queue: map<string, seq<string>>, despawned: seq<nat>, spawned: seq<(string, string)>)

  function Prepend(despawned: seq<nat>, spawned: seq<(string, string)>, t: BubbleTick): BubbleTick
  {
    BubbleTick(t.queue, despawned + t.despawned, spawned + t.spawned)
  }

  /** `bubbling_text` from bubble `from` on: an expired bubble is removed and,
      when its speaker has queued text, replaced by the next section; an expired
      bubble whose speaker's queue exists but is empty ends the whole tick. */
  function Bubbling(q: map<string, seq<string>>, bubbles: seq<Bubble>, from: nat): BubbleTick
    decreases |bubbles| - from
  {
    if from >= |bubbles| then BubbleTick(q, [], [])
    else
      var b := bubbles[from];
      if !b.justFinished then Bubbling(q, bubbles, from + 1)
      else if b.id !in q then Prepend([from], [], Bubbling(q, bubbles, from + 1))
      else if q[b.id] == [] then BubbleTick(q, [from], [])
      else Prepend([from], [(b.id, q[b.id][0])], Bubbling(q[b.id := q[b.id][1..]], bubbles, from + 1))
  }

  /** The texts among `spawned` that belong to speaker `id`, in order. */
  function SpawnedFor(spawned: seq<(string, string)>, id: string): seq<string>
  {
    if spawned == [] then []
    else (if spawned[0].0 == id then [spawned[0].1] else []) + SpawnedFor(spawned[1..], id)
  }

  lemma {:induction false} SpawnedForAppend(a: seq<(string, string)>, b: seq<(string, string)>, id: string)
    ensures SpawnedFor(a + b, id) == SpawnedFor(a, id) + SpawnedFor(b, id)
  {
    if a == [] {
      assert a + b == b;
    } else {
      assert (a + b)[1..] == a[1..] + b;
      SpawnedForAppend(a[1..], b, id);
    }
  }

  /** Queues are first in, first out: what a tick shows for a speaker, followed
      by what is left queued, is what was queued before; no speaker gains or
      loses an entry. */
  lemma {:induction false} BubblingIsFifo(q: map<string, seq<string>>, bubbles: seq<Bubble>, from: nat)
    ensures var t := Bubbling(q, bubbles, from);
            t.queue.Keys == q.Keys
            && forall id :: id in q ==> SpawnedFor(t.spawned, id) + t.queue[id] == q[id]
    decreases |bubbles| - from
  {
    if from < |bubbles| {
      var b := bubbles[from];
      if !b.justFinished || b.id !in q {
        BubblingIsFifo(q, bubbles, from + 1);
        var rest := Bubbling(q, bubbles, from + 1);
        assert [] + rest.spawned == rest.spawned;
      } else if q[b.id] != [] {
        var q' := q[b.id := q[b.id][1..]];
        BubblingIsFifo(q', bubbles, from + 1);
        var rest := Bubbling(q', bubbles, from + 1);
        forall id | id in q
          ensures SpawnedFor([(b.id, q[b.id][0])] + rest.spawned, id) + rest.queue[id] == q[id]
        {
          SpawnedForAppend([(b.id, q[b.id][0])], rest.spawned, id);
          assert SpawnedFor([(b.id, q[b.id][0])], id) == if id == b.id then [q[b.id][0]] else [];
        }
      }
    }
  }

  /** The text of every bubble spawned in a tick was queued for its speaker. */
  lemma {:induction false} SpawnedWereQueued(q: map<string, seq<string>>, bubbles: seq<Bubble>, from: nat)
    ensures forall s :: s in Bubbling(q, bubbles, from).spawned ==> s.0 in q && s.1 in q[s.0]
    decreases |bubbles| - from
  {
    if from < |bubbles| {
      var b := bubbles[from];
      if !b.justFinished || b.id !in q {
        SpawnedWereQueued(q, bubbles, from + 1);
      } else if q[b.id] != [] {
        var q' := q[b.id := q[b.id][1..]];
        SpawnedWereQueued(q', bubbles, from + 1);
        forall s | s in Bubbling(q', bubbles, from + 1).spawned
          ensures s.0 in q && s.1 in q[s.0]
        {
          if s.0 == b.id {
            assert q[b.id] == [q[b.id][0]] + q[b.id][1..];
          }
        }
      }
    }
  }

  /** `bubbling_text` with `continue` where the source returns: an expired
      bubble with an empty queue is removed and the tick goes on. */
  function BubblingContinuing(q: map<string, seq<string>>, bubbles: seq<Bubble>, from: nat): BubbleTick
    decreases |bubbles| - from
  {
    if from >= |bubbles| then BubbleTick(q, [], [])
    else
      var b := bubbles[from];
      if !b.justFinished then BubblingContinuing(q, bubbles, from + 1)
      else if b.id !in q || q[b.id] == [] then Prepend([from], [], BubblingContinuing(q, bubbles, from + 1))
      else Prepend([from], [(b.id, q[b.id][0])], BubblingContinuing(q[b.id := q[b.id][1..]], bubbles, from + 1))
  }

  /** As written, an expired bubble whose speaker's queue exists but is empty
      stops the tick: a second bubble whose timer runs out in the same tick is
      not removed in that tick (nor is its timer advanced). */
  lemma ReturnLeavesExpiredBubble()
    ensures var bubbles := [Bubble("Hank", true), Bubble("Bob", true)];
            var t := Bubbling(map["Hank" := []], bubbles, 0);
            bubbles[1].justFinished && 1 !in t.despawned
  {
    var bubbles := [Bubble("Hank", true), Bubble("Bob", true)];
    assert Bubbling(map["Hank" := []], bubbles, 0) == BubbleTick(map["Hank" := []], [0], []);
  }

  /** With `continue`, every bubble whose timer ran out is removed that tick,
      and nothing else is. */
  lemma {:induction false} ContinuingDespawnsEveryExpired(q: map<string, seq<string>>, bubbles: seq<Bubble>, from: nat)
    ensures forall i :: from <= i < |bubbles| ==>
              (i in BubblingContinuing(q, bubbles, from).despawned <==> bubbles[i].justFinished)
    ensures forall i :: i in BubblingContinuing(q, bubbles, from).despawned ==> from <= i < |bubbles|
    decreases |bubbles| - from
  {
    if from < |bubbles| {
      var b := bubbles[from];
      if !b.justFinished || b.id !in q || q[b.id] == [] {
        ContinuingDespawnsEveryExpired(q, bubbles, from + 1);
      } else {
        ContinuingDespawnsEveryExpired(q[b.id := q[b.id][1..]], bubbles, from + 1);
      }
    }
  }

  /** The speech-bubble resource: per speaker, the sections still to show. */
  class ChatBubble {
    var queue: map<string, seq<string>>

    constructor ()
      ensures queue == map[]
    {
      queue := map[];
    }

    /** The sectioning loop of `get_ai_response` for one reply of speaker `id`. */
    method PushSections(id: string, msg: string)
      modifies this
      ensures queue == Enqueued(old(queue), id, QueuedSections(msg))
    {
      var n, size := Sections(|msg|), SectionSize(|msg|);
      ghost var qs := QueuedSections(msg);
      for i := 1 to n
        invariant queue == Enqueued(old(queue), id, qs[..i - 1])
      {
        SectionAt(msg, i);
        var section: string;
        if i == n - 1 {
          section := msg[i * size..];
        } else {
          section := msg[i * size..(i + 1) * size] + Ellipsis;
        }
        EnqueuedAppend(old(queue), id, qs[..i - 1], [section]);
        assert qs[..i - 1] + [section] == qs[..i];
        queue := queue[id := (if id in queue then queue[id] else [section]) + [section]];
      }
      assert qs[..n - 1] == qs;
    }

    /** `bubbling_text`: removes expired bubbles and shows each speaker's next
        queued section in their place, stopping the tick at the first expired
        bubble whose speaker's queue is empty. */
    method BubblingText(bubbles: seq<Bubble>) returns (despawned: seq<nat>, spawned: seq<(string, string)>)
      modifies this
      ensures BubbleTick(queue, despawned, spawned) == Bubbling(old(queue), bubbles, 0)
    {
      despawned, spawned := [], [];
      for i := 0 to |bubbles|
        invariant Bubbling(old(queue), bubbles, 0) == Prepend(despawned, spawned, Bubbling(queue, bubbles, i))
      {
        var b := bubbles[i];
        if b.justFinished {
          despawned := despawned + [i];
          if b.id in queue {
            if queue[b.id] == [] {
              return;
            }
            var text := queue[b.id][0];
            queue := queue[b.id := queue[b.id][1..]];
            spawned := spawned + [(b.id, text)];
          }
        }
      }
    }
  }
}
