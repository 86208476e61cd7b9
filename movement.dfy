/** Player movement: the input latch and the key-to-force rule. */
module Movement {
  import opened ChatInput

  /** A force or direction; every component the rules produce is an integer. */
  datatype Vec3 = Vec3(x: int, y: int, z: int)

  /** Which of the movement keys are held this tick. */
  datatype MovementKeys = MovementKeys(w: bool, a: bool, s: bool, d: bool)

  /** The magnitude multiplier applied to the direction. */
  const ForceScale: int := 15

  /** `get_direction_vector`: W pulls towards -x, S towards +x, A towards +z and
      D towards -z; opposite keys cancel and nothing acts on y. */
  function DirectionVector(keys: MovementKeys): (v: Vec3)
    ensures v.y == 0
    ensures (v.x == -1 <==> keys.w && !keys.s) && (v.x == 1 <==> keys.s && !keys.w)
    ensures v.x == 0 <==> keys.w == keys.s
    ensures (v.z == 1 <==> keys.a && !keys.d) && (v.z == -1 <==> keys.d && !keys.a)
    ensures v.z == 0 <==> keys.a == keys.d
  {
    var v0 := Vec3(0, 0, 0);
    var v1 := if keys.w then v0.(x := v0.x - 1) else v0;
    var v2 := if keys.s then v1.(x := v1.x + 1) else v1;
    var v3 := if keys.a then v2.(z := v2.z + 1) else v2;
    var v4 := if keys.d then v3.(z := v3.z - 1) else v3;
    v4
  }

  /** `update_player_movement`: the force written for the held keys. */
  function MovementForce(keys: MovementKeys): (f: Vec3)
    ensures f.y == 0 && f.x in {-ForceScale, 0, ForceScale} && f.z in {-ForceScale, 0, ForceScale}
    ensures f == Vec3(0, 0, 0) <==> keys.w == keys.s && keys.a == keys.d
    ensures (f.x == -ForceScale <==> keys.w && !keys.s) && (f.x == ForceScale <==> keys.s && !keys.w)
    ensures (f.z == ForceScale <==> keys.a && !keys.d) && (f.z == -ForceScale <==> keys.d && !keys.a)
  {
    var dir := DirectionVector(keys);
    Vec3(dir.x * ForceScale, dir.y * ForceScale, dir.z * ForceScale)
  }

  /** The latch after reading a batch of toggle events: the last one wins, and
      an empty batch keeps the previous value. */
  function LatchAfter(canMove: bool, toggles: seq<ToggleInputEvent>): (r: bool)
    ensures toggles == [] ==> r == canMove
    ensures toggles != [] ==> r == !toggles[|toggles| - 1].isToggled
    decreases toggles
  {
    if toggles == [] then canMove else LatchAfter(!toggles[0].isToggled, toggles[1..])
  }

  /** Reading two batches one after the other is the same as reading them as one. */
  lemma LatchBatches(canMove: bool, first: seq<ToggleInputEvent>, second: seq<ToggleInputEvent>)
    ensures LatchAfter(LatchAfter(canMove, first), second) == LatchAfter(canMove, first + second)
  {
    if second != [] {
      assert (first + second)[|first + second| - 1] == second[|second| - 1];
    }
  }

  /** Fed with the toggles the keyboard handler emits, in order, the latch always
      says "can move" exactly when the player is not typing. */
  lemma {:induction false} LatchTracksTyping(isTyping: bool, text: string, events: seq<KeyboardInput>, near: seq<bool>)
    ensures var o := Listen(isTyping, text, events, near);
            LatchAfter(!isTyping, o.toggles) == !o.isTyping
  {
    if events != [] {
      var init := events[..|events| - 1];
      LatchTracksTyping(isTyping, text, init, near);
      var prev := Listen(isTyping, text, init, near);
      var step := KeyStep(prev.isTyping, prev.text, events[|events| - 1], near);
      LatchBatches(!isTyping, prev.toggles, step.toggles);
      KeyStepLatch(prev.isTyping, prev.text, events[|events| - 1], near);
    }
  }

  lemma KeyStepLatch(isTyping: bool, text: string, ev: KeyboardInput, near: seq<bool>)
    ensures var step := KeyStep(isTyping, text, ev, near);
            LatchAfter(!isTyping, step.toggles) == !step.isTyping
  {
    var ts := NearToggles(near);
    if ts != [] {
      assert ts[|ts| - 1] in ts;
    }
  }

  /** The state captured by the movement system: may the player move? */
  class PlayerMovementState {
    var canMove: bool

    /** Movement starts enabled. */
    constructor ()
      ensures canMove
    {
      canMove := true;
    }

    /** One tick of the movement system: read this tick's toggle events into the
        latch, then, if movement is allowed, write the force for the held keys
        into every player's force slot; otherwise write nothing. */
    method Update(toggles: seq<ToggleInputEvent>, keys: MovementKeys, forces: array<Vec3>)
      modifies this, forces
      ensures canMove == LatchAfter(old(canMove), toggles)
      ensures canMove ==> forall i :: 0 <= i < forces.Length ==> forces[i] == MovementForce(keys)
      ensures !canMove ==> forces[..] == old(forces[..])
    {
      for t := 0 to |toggles|
        invariant canMove == LatchAfter(old(canMove), toggles[..t])
        invariant forces[..] == old(forces[..])
      {
        LatchBatches(old(canMove), toggles[..t], [toggles[t]]);
        assert toggles[..t] + [toggles[t]] == toggles[..t + 1];
        canMove := !toggles[t].isToggled;
      }
      assert toggles[..|toggles|] == toggles;
      if !canMove {
        return;
      }
      for i := 0 to forces.Length
        invariant canMove == LatchAfter(old(canMove), toggles)
        invariant forall j :: 0 <= j < i ==> forces[j] == MovementForce(keys)
      {
        forces[i] := MovementForce(keys);
      }
    }
  }
}
