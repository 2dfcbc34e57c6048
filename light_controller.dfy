/**
 * color_pixels in light_controller.py: the effect keys first, in the order
 * the command holds them, then the per-pixel pass. In that pass every
 * command key that int() accepts names a pixel, and the key's value is
 * assigned to it as it stands; a key int() rejects (the effect keys among
 * them) is skipped, and an index outside the strip raises an IndexError
 * that nothing catches, leaving the earlier assignments in place. The
 * command is the JSON object's entries in iteration order; its effect keys
 * come with their values decoded as effects.
 */
module LightController {
  import opened Wrappers
  import opened Text
  import opened LedEffects

  /**
   * One entry of the loop on the colours so far: unchanged when int() rejects
   * the key, None when the index raises an IndexError.
   */
  function Step(s: seq<Color>, e: (string, Color)): (r: Option<seq<Color>>)
    ensures r.Some? ==> |r.value| == |s|
  {
    match PyInt(e.0)
    case None => Some(s)
    case Some(k) => if InStrip(k, |s|) then Some(s[Slot(k, |s|) := e.1]) else None
  }

  /**
   * The loop over the whole command: Success with the final colours, or
   * Failure with the colours at the moment the IndexError was raised.
   */
  function Run(s: seq<Color>, command: seq<(string, Color)>): (r: Result<seq<Color>, seq<Color>>)
    ensures r.Success? ==> |r.value| == |s|
    ensures r.Failure? ==> |r.error| == |s|
  {
    if |command| == 0 then Success(s)
    else
      match Run(s, command[..|command| - 1])
      case Failure(p) => Failure(p)
      case Success(p) =>
        match Step(p, command[|command| - 1])
        case None => Failure(p)
        case Some(q) => Success(q)
  }

  lemma RunSnoc(s: seq<Color>, command: seq<(string, Color)>, i: nat)
    requires i < |command|
    ensures Run(s, command[..i + 1]) ==
      match Run(s, command[..i])
      case Failure(p) => Failure(p)
      case Success(p) =>
        match Step(p, command[i])
        case None => Failure(p)
        case Some(q) => Success(q)
  {
    assert command[..i + 1][..i] == command[..i];
  }

  /** Once an IndexError is raised the rest of the command is not looked at. */
  lemma {:induction false} RunFailureSticks(s: seq<Color>, command: seq<(string, Color)>, i: nat)
    requires i <= |command| && Run(s, command[..i]).Failure?
    ensures Run(s, command) == Run(s, command[..i])
    decreases |command| - i
  {
    if i < |command| {
      RunSnoc(s, command, i);
      RunFailureSticks(s, command, i + 1);
    } else {
      assert command[..i] == command;
    }
  }

  /**
   * The second loop of color_pixels: try int(key) and assign the value to
   * that pixel; a ValueError skips the key, an IndexError ends the request
   * (ok is false). The returned state lists every pixel.
   */
  method ColorPixels(pixels: array<Color>, command: seq<(string, Color)>) returns (ok: bool, state: seq<Color>)
    modifies pixels
    ensures Run(old(pixels[..]), command) == if ok then Success(pixels[..]) else Failure(pixels[..])
    ensures state == pixels[..]
  {
    var i := 0;
    ok := true;
    while i < |command|
      invariant 0 <= i <= |command|
      invariant Run(old(pixels[..]), command[..i]) == Success(pixels[..])
    {
      RunSnoc(old(pixels[..]), command, i);
      match PyInt(command[i].0) {
        case Some(ind) =>
          if !(-pixels.Length <= ind < pixels.Length) {
            ok := false;
            RunFailureSticks(old(pixels[..]), command, i + 1);
            state := pixels[..];
            return;
          }
          var slot := if ind < 0 then ind + pixels.Length else ind;
          pixels[slot] := command[i].1;
        case None =>
      }
      i := i + 1;
    }
    assert command[..i] == command;
    state := pixels[..];
  }

  /**
   * The whole request: the effects, then the per-pixel pass on the colours
   * they leave. Failure carries the colours at the IndexError.
   */
  function Handle(s: seq<Color>, effects: seq<Effect>, command: seq<(string, Color)>): Result<seq<Color>, seq<Color>>
    requires |s| == NUM_LEDS
  {
    Run(AfterEffects(s, effects), command)
  }

  /** color_pixels: the effect loop, then the per-pixel pass; ok is false when an IndexError ended it. */
  method HandleColorPixels(pixels: array<Color>, effects: seq<Effect>, command: seq<(string, Color)>)
    returns (ok: bool, state: seq<Color>)
    requires pixels.Length == NUM_LEDS
    modifies pixels
    ensures Handle(old(pixels[..]), effects, command) == if ok then Success(state) else Failure(state)
    ensures state == pixels[..]
  {
    ApplyEffects(pixels, effects);
    ok, state := ColorPixels(pixels, command);
  }

  /**
   * A request whose integer keys all lie in the strip completes: every pixel
   * a key names ends with the value of the last such key, and every other
   * pixel with the colour the effects left it.
   */
  lemma HandleFinalColours(s: seq<Color>, effects: seq<Effect>, command: seq<(string, Color)>, k: nat)
    requires |s| == NUM_LEDS && KeysInStrip(command, NUM_LEDS) && k < NUM_LEDS
    ensures AllInStrip(Writes(command), NUM_LEDS)
    ensures Handle(s, effects, command).Success?
    ensures Handle(s, effects, command).value[k] ==
      LastWrite(Writes(command), NUM_LEDS, k, AfterEffects(s, effects)[k])
  {
    var t := AfterEffects(s, effects);
    RunPerformsWrites(t, command);
    ApplyWritesAt(t, Writes(command), k);
  }

  // ---------------------------------------------------------------------------
  // The writes a command asks for

  /** The write one entry asks for: none when int() rejects its key. */
  function EntryWrites(e: (string, Color)): (ws: seq<Write>)
    ensures |ws| <= 1
  {
    match PyInt(e.0)
    case Some(k) => [Write(k, e.1)]
    case None => []
  }

  /** The pixel writes a command asks for, in order: one per key that parses as an integer. */
  function Writes(command: seq<(string, Color)>): (ws: seq<Write>)
    ensures |ws| <= |command|
  {
    if |command| == 0 then []
    else Writes(command[..|command| - 1]) + EntryWrites(command[|command| - 1])
  }

  /** Every key that parses names a pixel of the strip. */
  predicate KeysInStrip(command: seq<(string, Color)>, n: nat)
  {
    forall i :: 0 <= i < |command| ==> PyInt(command[i].0).Some? ==> InStrip(PyInt(command[i].0).value, n)
  }

  /**
   * When every integer key is inside the strip the loop completes, and its
   * result is that of performing the requested writes in order.
   */
  lemma {:induction false} RunPerformsWrites(s: seq<Color>, command: seq<(string, Color)>)
    requires KeysInStrip(command, |s|)
    ensures AllInStrip(Writes(command), |s|)
    ensures Run(s, command) == Success(ApplyWrites(s, Writes(command)))
  {
    if |command| > 0 {
      var n := |command| - 1;
      var init := command[..n];
      assert KeysInStrip(init, |s|) by {
        assert forall i :: 0 <= i < |init| ==> init[i] == command[i];
      }
      RunPerformsWrites(s, init);
      var before := Writes(init);
      match PyInt(command[n].0) {
        case Some(k) =>
          assert InStrip(k, |s|);
          ApplyWritesSnoc(s, before, Write(k, command[n].1));
        case None =>
          assert before + [] == before;
      }
    }
  }

  /** The request fails with an IndexError exactly when some integer key lies outside the strip. */
  lemma {:induction false} RunFailsExactly(s: seq<Color>, command: seq<(string, Color)>)
    ensures Run(s, command).Failure? <==> !KeysInStrip(command, |s|)
  {
    if KeysInStrip(command, |s|) {
      RunPerformsWrites(s, command);
    } else if |command| > 0 {
      var n := |command| - 1;
      var init := command[..n];
      assert forall i :: 0 <= i < |init| ==> init[i] == command[i];
      RunFailsExactly(s, init);
    }
  }

  /** A command of integer keys only asks for one write per entry, in order. */
  lemma {:induction false} IntegerKeysAllWrite(command: seq<(string, Color)>, keys: seq<int>)
    requires |keys| == |command|
    requires forall i :: 0 <= i < |command| ==> PyInt(command[i].0) == Some(keys[i])
    ensures |Writes(command)| == |command|
    ensures forall i :: 0 <= i < |command| ==> Writes(command)[i] == Write(keys[i], command[i].1)
  {
    if |command| > 0 {
      var n := |command| - 1;
      var init := command[..n];
      assert forall i :: 0 <= i < n ==> init[i] == command[i];
      IntegerKeysAllWrite(init, keys[..n]);
      assert EntryWrites(command[n]) == [Write(keys[n], command[n].1)];
      var ws := Writes(command);
      assert ws == Writes(init) + EntryWrites(command[n]);
      forall i | 0 <= i < |command|
        ensures ws[i] == Write(keys[i], command[i].1)
      {
        if i < n {
          assert ws[i] == Writes(init)[i];
          assert keys[..n][i] == keys[i];
        }
      }
    }
  }

  /** A command whose keys int() all rejects changes no pixel. */
  lemma {:induction false} NonIntegerKeysNoWrite(command: seq<(string, Color)>)
    requires forall i :: 0 <= i < |command| ==> PyInt(command[i].0).None?
    ensures Writes(command) == []
  {
    if |command| > 0 {
      NonIntegerKeysNoWrite(command[..|command| - 1]);
    }
  }

  /** The effect keys are not integers, so the per-pixel pass skips them. */
  lemma EffectKeysSkipped()
    ensures PyInt("color_chase").None? && PyInt("rainbow_cycle").None?
    ensures PyInt("fill").None? && PyInt("brightness").None?
  {
    PyIntRejectsWord("color_chase");
    PyIntRejectsWord("rainbow_cycle");
    PyIntRejectsWord("fill");
    PyIntRejectsWord("brightness");
  }

  /** The key "3" is pixel 3. */
  lemma KeyThree()
    ensures PyInt("3") == Some(3)
  {
    PyIntOfIntToString(3);
    assert IntToString(3) == "3";
  }

  /** The key "-1" is the last pixel. */
  lemma KeyMinusOne()
    ensures PyInt("-1") == Some(-1)
  {
    PyIntOfIntToString(-1);
    assert IntToString(-1) == "-1";
  }
}
