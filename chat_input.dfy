/** The chat-input state machine driven by keyboard events. */
module ChatInput {

  /** The logical keys the handler distinguishes; every other key is `Other`. */
  datatype Key = Enter | Space | Backspace | Escape | Character(text: string) | Other

  /** One keyboard event: the key and whether it was pressed (false: released). */
  datatype KeyboardInput = KeyboardInput(pressed: bool, key: Key)

  /** Emitted when the player finalises a line of dialogue. */
  datatype AiRequestEvent = AiRequestEvent(msg: string)

  /** Tells listeners whether text input has been switched on. */
  datatype ToggleInputEvent = ToggleInputEvent(isToggled: bool)

  /** The typing flag and text buffer after some events, and what they emitted. */
  datatype Outcome = Outcome(isTyping: bool, text: string,
                             requests: seq<AiRequestEvent>, toggles: seq<ToggleInputEvent>)

  /** One `ToggleInputEvent(true)` per player–NPC pair that is near. */
  function NearToggles(near: seq<bool>): (ts: seq<ToggleInputEvent>)
    ensures forall t :: t in ts ==> t.isToggled
    ensures ts == [] <==> true !in near
  {
    if near == [] then []
    else NearToggles(near[..|near| - 1]) + (if near[|near| - 1] then [ToggleInputEvent(true)] else [])
  }

  /** The effect of one event on (typing flag, buffer). `near` holds, per
      player–NPC pair, whether the two are within talking distance. */
  function KeyStep(isTyping: bool, text: string, ev: KeyboardInput, near: seq<bool>): Outcome
  {
    var idle := Outcome(isTyping, text, [], []);
    if !ev.pressed then idle
    else
      match ev.key
      case Enter =>
        if !isTyping || text == [] then idle
        else Outcome(false, [], [AiRequestEvent(text)], [ToggleInputEvent(false)])
      case Space =>
        if isTyping then Outcome(true, text + [' '], [], [])
        else Outcome(NearToggles(near) != [], text, [], NearToggles(near))
      case Backspace =>
        if !isTyping then idle
        else Outcome(true, if text == [] then [] else text[..|text| - 1], [], [])
      case Escape =>
        if !isTyping then idle
        else Outcome(false, [], [], [ToggleInputEvent(false)])
      case Character(s) =>
        if !isTyping then idle
        else Outcome(true, text + s, [], [])
      case Other => idle
  }

  /** A batch of events processed in order, the emitted events concatenated. */
  function Listen(isTyping: bool, text: string, events: seq<KeyboardInput>, near: seq<bool>): Outcome
  {
    if events == [] then Outcome(isTyping, text, [], [])
    else
      var prev := Listen(isTyping, text, events[..|events| - 1], near);
      var step := KeyStep(prev.isTyping, prev.text, events[|events| - 1], near);
      Outcome(step.isTyping, step.text, prev.requests + step.requests, prev.toggles + step.toggles)
  }

  lemma ReleasesIgnored(isTyping: bool, text: string, key: Key, near: seq<bool>)
    ensures KeyStep(isTyping, text, KeyboardInput(false, key), near) == Outcome(isTyping, text, [], [])
  {
  }

  /** While not typing, every key but Space changes nothing and emits nothing. */
  lemma IdleKeysIgnored(text: string, ev: KeyboardInput, near: seq<bool>)
    requires ev.key != Space
    ensures KeyStep(false, text, ev, near) == Outcome(false, text, [], [])
  {
  }

  /** Enter while typing a non-empty line submits exactly that line, clears the
      buffer, stops typing and switches input off. */
  lemma EnterSubmits(text: string, near: seq<bool>)
    requires text != []
    ensures KeyStep(true, text, KeyboardInput(true, Enter), near)
         == Outcome(false, [], [AiRequestEvent(text)], [ToggleInputEvent(false)])
  {
  }

  lemma EnterOnEmptyLineIgnored(near: seq<bool>)
    ensures KeyStep(true, [], KeyboardInput(true, Enter), near) == Outcome(true, [], [], [])
  {
  }

  /** Escape abandons the line: no request, typing off, input switched off. */
  lemma EscapeCancels(text: string, near: seq<bool>)
    ensures KeyStep(true, text, KeyboardInput(true, Escape), near)
         == Outcome(false, [], [], [ToggleInputEvent(false)])
  {
  }

  /** Backspace drops the last character; the buffer is otherwise kept. */
  lemma BackspaceDropsLast(text: string, near: seq<bool>)
    ensures var o := KeyStep(true, text, KeyboardInput(true, Backspace), near);
            o.isTyping && o.requests == [] && o.toggles == []
            && (text == [] ==> o.text == []) && (text != [] ==> o.text + [text[|text| - 1]] == text)
  {
  }

  lemma CharacterAppends(text: string, s: string, near: seq<bool>)
    ensures KeyStep(true, text, KeyboardInput(true, Character(s)), near) == Outcome(true, text + s, [], [])
  {
  }

  lemma SpaceWhileTypingAppends(text: string, near: seq<bool>)
    ensures KeyStep(true, text, KeyboardInput(true, Space), near) == Outcome(true, text + " ", [], [])
  {
  }

  /** Space while not typing starts typing exactly when some pair is near, with
      one toggle(true) per near pair and the buffer untouched. */
  lemma {:induction false} SpaceWhileIdle(text: string, near: seq<bool>)
    ensures var o := KeyStep(false, text, KeyboardInput(true, Space), near);
            o.isTyping == (true in near) && o.text == text && o.requests == []
            && (forall t :: t in o.toggles ==> t.isToggled)
            && |o.toggles| == multiset(near)[true]
  {
    NearTogglesCount(near);
  }

  lemma {:induction false} NearTogglesCount(near: seq<bool>)
    ensures |NearToggles(near)| == multiset(near)[true]
  {
    if near != [] {
      var init := near[..|near| - 1];
      NearTogglesCount(init);
      assert near == init + [near[|near| - 1]];
    }
  }

  /** Every request ever emitted carries a non-empty line. */
  lemma {:induction false} RequestsAreNonEmpty(isTyping: bool, text: string, events: seq<KeyboardInput>, near: seq<bool>)
    ensures forall r :: r in Listen(isTyping, text, events, near).requests ==> r.msg != []
  {
    if events != [] {
      RequestsAreNonEmpty(isTyping, text, events[..|events| - 1], near);
    }
  }

  /** A request is only ever emitted together with switching input off:
      there are never more requests than toggle(false) events. */
  lemma {:induction false} RequestsComeWithToggleOff(isTyping: bool, text: string, events: seq<KeyboardInput>, near: seq<bool>)
    ensures var o := Listen(isTyping, text, events, near);
            |o.requests| <= multiset(o.toggles)[ToggleInputEvent(false)]
  {
    if events != [] {
      var init := events[..|events| - 1];
      RequestsComeWithToggleOff(isTyping, text, init, near);
      var prev := Listen(isTyping, text, init, near);
      var step := KeyStep(prev.isTyping, prev.text, events[|events| - 1], near);
      assert multiset(prev.toggles + step.toggles) == multiset(prev.toggles) + multiset(step.toggles);
      assert |step.requests| <= multiset(step.toggles)[ToggleInputEvent(false)];
    }
  }

  /** While not typing, a batch without a pressed Space is ignored entirely. */
  lemma {:induction false} IdleWithoutSpaceIgnored(text: string, events: seq<KeyboardInput>, near: seq<bool>)
    requires forall i :: 0 <= i < |events| ==> !(events[i].pressed && events[i].key == Space)
    ensures Listen(false, text, events, near) == Outcome(false, text, [], [])
  {
    if events != [] {
      IdleWithoutSpaceIgnored(text, events[..|events| - 1], near);
    }
  }

  /** The typing flag and the text line the player edits. */
  class InputState {
    var isTyping: bool
    var text: string

    constructor ()
      ensures !isTyping && text == []
    {
      isTyping := false;
      text := [];
    }

    /** `listen_keyboard_input_events`: handles one batch of keyboard events and
        returns the request and toggle events it emitted, in order. */
    method ListenKeyboardInputEvents(events: seq<KeyboardInput>, near: seq<bool>)
      returns (requests: seq<AiRequestEvent>, toggles: seq<ToggleInputEvent>)
      modifies this
      ensures Outcome(isTyping, text, requests, toggles) == Listen(old(isTyping), old(text), events, near)
    {
      requests, toggles := [], [];
      for i := 0 to |events|
        invariant Outcome(isTyping, text, requests, toggles) == Listen(old(isTyping), old(text), events[..i], near)
      {
        assert events[..i + 1][..i] == events[..i];
        var newRequests, newToggles := HandleKey(events[i], near);
        requests := requests + newRequests;
        toggles := toggles + newToggles;
      }
      assert events[..|events|] == events;
    }

    /** The body of the event loop for one event. */
    method HandleKey(ev: KeyboardInput, near: seq<bool>)
      returns (requests: seq<AiRequestEvent>, toggles: seq<ToggleInputEvent>)
      modifies this
      ensures Outcome(isTyping, text, requests, toggles) == KeyStep(old(isTyping), old(text), ev, near)
    {
      requests, toggles := [], [];
      if !ev.pressed {
        return;
      }
      match ev.key {
        case Enter =>
          if !isTyping || text == [] {
            return;
          }
          var line := text;
          text := [];
          requests := [AiRequestEvent(line)];
          toggles := [ToggleInputEvent(false)];
          isTyping := false;
        case Space =>
          if isTyping {
            text := text + [' '];
          } else {
            toggles := StartTyping(near);
          }
        case Backspace =>
          if !isTyping {
            return;
          }
          if text != [] {
            text := text[..|text| - 1];
          }
        case Escape =>
          if !isTyping {
            return;
          }
          text := [];
          isTyping := false;
          toggles := [ToggleInputEvent(false)];
        case Character(s) =>
          if !isTyping {
            return;
          }
          text := text + s;
        case Other =>
      }
    }

    /** Space while not typing: every near player–NPC pair switches typing on
        and emits its own toggle(true). */
    method StartTyping(near: seq<bool>) returns (toggles: seq<ToggleInputEvent>)
      requires !isTyping
      modifies this`isTyping
      ensures toggles == NearToggles(near) && isTyping == (toggles != [])
    {
      toggles := [];
      for j := 0 to |near|
        invariant toggles == NearToggles(near[..j])
        invariant isTyping == (toggles != [])
      {
        assert near[..j + 1][..j] == near[..j];
        if near[j] {
          isTyping := true;
          toggles := toggles + [ToggleInputEvent(true)];
        }
      }
      assert near[..|near|] == near;
    }
  }
}
