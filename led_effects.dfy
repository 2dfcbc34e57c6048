/**
 * The LED effects that script/light_controller.py and light_controller.py
 * define identically: the colour wheel, the colour chase and the rainbow
 * cycle over a strip of NUM_LEDS pixels, and the per-pixel writes both
 * color_pixels handlers end in. The strip is an array of colours; show() is
 * modelled by recording the colours it would display, and the sleeps are
 * left out.
 */
module LedEffects {

  /** num_leds */
  const NUM_LEDS: nat := 8

  /** An (r, g, b) colour as the handlers pass it on: a sequence of integers. */
  type Color = seq<int>

  const BLACK: Color := [0, 0, 0]

  predicate IsChannel(v: int) { 0 <= v <= 255 }

  /**
   * wheel(pos): red to green to blue and back to red as pos runs over 0..255,
   * black outside that range.
   */
  function Wheel(pos: int): (c: Color)
    ensures |c| == 3
    ensures (pos < 0 || pos > 255) <==> c == BLACK
    ensures 0 <= pos <= 255 ==> IsChannel(c[0]) && IsChannel(c[1]) && IsChannel(c[2])
    ensures 0 <= pos <= 255 ==> c[0] + c[1] + c[2] == 255
  {
    if pos < 0 || pos > 255 then [0, 0, 0]
    else if pos < 85 then [255 - pos * 3, pos * 3, 0]
    else if pos < 170 then
      var p := pos - 85;
      [0, 255 - p * 3, p * 3]
    else
      var p := pos - 170;
      [p * 3, 0, 255 - p * 3]
  }

  /** The position a wheel colour came from: which channel is off tells the segment. */
  function WheelPosition(c: Color): int
    requires |c| == 3
  {
    if c[2] == 0 then c[1] / 3
    else if c[0] == 0 then 85 + c[2] / 3
    else 170 + c[0] / 3
  }

  /** The wheel is one-to-one on 0..254; 255 comes back round to the colour of 0. */
  lemma WheelDecode(pos: int)
    requires 0 <= pos <= 255
    ensures WheelPosition(Wheel(pos)) == if pos == 255 then 0 else pos
  {
    if pos < 85 {
      assert (pos * 3) / 3 == pos;
    } else if pos < 170 {
      var p := pos - 85;
      if p > 0 {
        assert (p * 3) / 3 == p;
      }
    } else {
      var p := pos - 170;
      if p > 0 && p < 85 {
        assert (p * 3) / 3 == p;
      }
    }
  }

  lemma WheelInjective(a: int, b: int)
    requires 0 <= a <= 254 && 0 <= b <= 254 && Wheel(a) == Wheel(b)
    ensures a == b
  {
    WheelDecode(a);
    WheelDecode(b);
  }

  /** The primary colours on the wheel. */
  lemma WheelPrimaries()
    ensures Wheel(0) == [255, 0, 0] && Wheel(255) == [255, 0, 0]
    ensures Wheel(85) == [0, 255, 0] && Wheel(170) == [0, 0, 255]
  {
  }

  // ---------------------------------------------------------------------------
  // color_chase

  /** What show() displays after the chase has painted pixels 0..f. */
  function ChaseFrame(before: seq<Color>, color: Color, f: int): (frame: seq<Color>)
    ensures |frame| == |before|
  {
    seq(|before|, i requires 0 <= i < |before| => if i <= f then color else before[i])
  }

  /** color_chase(color, wait, pixels): paint the pixels one at a time, showing after each. */
  method ColorChase(color: Color, pixels: array<Color>) returns (frames: seq<seq<Color>>)
    requires pixels.Length == NUM_LEDS
    modifies pixels
    ensures forall i :: 0 <= i < NUM_LEDS ==> pixels[i] == color
    ensures |frames| == NUM_LEDS
    ensures forall f :: 0 <= f < NUM_LEDS ==> frames[f] == ChaseFrame(old(pixels[..]), color, f)
  {
    frames := [];
    var i := 0;
    while i < NUM_LEDS
      invariant 0 <= i <= NUM_LEDS
      invariant forall k :: 0 <= k < i ==> pixels[k] == color
      invariant forall k :: i <= k < NUM_LEDS ==> pixels[k] == old(pixels[k])
      invariant |frames| == i
      invariant forall f :: 0 <= f < i ==> frames[f] == ChaseFrame(old(pixels[..]), color, f)
    {
      pixels[i] := color;
      assert pixels[..] == ChaseFrame(old(pixels[..]), color, i);
      frames := frames + [pixels[..]];
      i := i + 1;
    }
  }

  // ---------------------------------------------------------------------------
  // rainbow_cycle

  /** ((i * 256 // num_leds) + j) & 255; the operand is never negative, so & 255 is % 256. */
  function RainbowIndex(i: nat, j: nat): (r: int)
    ensures 0 <= r <= 255
  {
    (i * 256 / NUM_LEDS + j) % 256
  }

  /** The colours of step j of the rainbow cycle. */
  function RainbowFrame(j: nat): (frame: seq<Color>)
    ensures |frame| == NUM_LEDS
  {
    seq(NUM_LEDS, i requires 0 <= i < NUM_LEDS => Wheel(RainbowIndex(i, j)))
  }

  /** rainbow_cycle(wait, pixels): 255 steps, each painting every pixel and showing the strip. */
  method RainbowCycle(pixels: array<Color>) returns (frames: seq<seq<Color>>)
    requires pixels.Length == NUM_LEDS
    modifies pixels
    ensures |frames| == 255
    ensures forall j :: 0 <= j < 255 ==> frames[j] == RainbowFrame(j)
    ensures pixels[..] == RainbowFrame(254)
  {
    frames := [];
    var j := 0;
    while j < 255
      invariant 0 <= j <= 255
      invariant |frames| == j
      invariant forall f :: 0 <= f < j ==> frames[f] == RainbowFrame(f)
      invariant j > 0 ==> pixels[..] == RainbowFrame(j - 1)
    {
      var i := 0;
      while i < NUM_LEDS
        invariant 0 <= i <= NUM_LEDS
        invariant forall k :: 0 <= k < i ==> pixels[k] == Wheel(RainbowIndex(k, j))
      {
        pixels[i] := Wheel(RainbowIndex(i, j));
        i := i + 1;
      }
      assert pixels[..] == RainbowFrame(j);
      frames := frames + [pixels[..]];
      j := j + 1;
    }
  }

  /** No step of the rainbow shows a pixel black, and pixel i runs i * 32 places ahead of pixel 0. */
  lemma RainbowNeverBlack(i: nat, j: nat)
    requires i < NUM_LEDS && j < 255
    ensures RainbowFrame(j)[i] != BLACK
    ensures RainbowFrame(j)[i] == Wheel((32 * i + j) % 256)
  {
  }

  // ---------------------------------------------------------------------------
  // The effect keys of a command, and the start-up sequence

  /**
   * One effect key of a color_pixels command with its value: color_chase,
   * rainbow_cycle, fill and brightness. The waits are sleeps and are dropped.
   */
  datatype Effect = Chase(color: Color) | Rainbow | Fill(color: Color) | Brightness(level: real)

  /** The predefined colours. */
  const RED: Color := [255, 0, 0]
  const YELLOW: Color := [255, 150, 0]
  const GREEN: Color := [0, 255, 0]
  const CYAN: Color := [0, 255, 255]
  const BLUE: Color := [0, 0, 255]
  const PURPLE: Color := [180, 0, 255]

  /** The strip with every pixel the same colour. */
  function Solid(color: Color): (s: seq<Color>)
    ensures |s| == NUM_LEDS
    ensures forall i :: 0 <= i < NUM_LEDS ==> s[i] == color
  {
    seq(NUM_LEDS, i requires 0 <= i < NUM_LEDS => color)
  }

  /**
   * The colours the strip holds after one effect. Brightness scales what the
   * strip emits, not the colours it holds and reports back.
   */
  function AfterEffect(s: seq<Color>, e: Effect): (r: seq<Color>)
    requires |s| == NUM_LEDS
    ensures |r| == NUM_LEDS
  {
    match e
    case Chase(c) => Solid(c)
    case Rainbow => RainbowFrame(254)
    case Fill(c) => Solid(c)
    case Brightness(_) => s
  }

  /** The colours after the effects, in order. */
  function AfterEffects(s: seq<Color>, es: seq<Effect>): (r: seq<Color>)
    requires |s| == NUM_LEDS
    ensures |r| == NUM_LEDS
  {
    if |es| == 0 then s else AfterEffect(AfterEffects(s, es[..|es| - 1]), es[|es| - 1])
  }

  predicate Paints(e: Effect) { !e.Brightness? }

  /**
   * Only the last effect that paints matters: the colours after a run of
   * effects are those the last chase, rainbow or fill leaves, whatever the
   * strip showed before; without one the strip keeps its colours.
   */
  lemma {:induction false} LastPaintWins(s: seq<Color>, t: seq<Color>, es: seq<Effect>, k: nat)
    requires |s| == NUM_LEDS && |t| == NUM_LEDS
    requires k < |es| && Paints(es[k])
    requires forall j :: k < j < |es| ==> !Paints(es[j])
    ensures AfterEffects(s, es) == AfterEffect(t, es[k])
  {
    if k < |es| - 1 {
      var init := es[..|es| - 1];
      assert init[k] == es[k];
      assert forall j :: k < j < |init| ==> init[j] == es[j];
      LastPaintWins(s, t, init, k);
    } else {
      assert AfterEffect(AfterEffects(s, es[..k]), es[k]) == AfterEffect(t, es[k]);
    }
  }

  /** Effects none of which paints leave the colours as they were. */
  lemma {:induction false} BrightnessOnlyKeepsColours(s: seq<Color>, es: seq<Effect>)
    requires |s| == NUM_LEDS
    requires forall j :: 0 <= j < |es| ==> !Paints(es[j])
    ensures AfterEffects(s, es) == s
  {
    if |es| > 0 {
      var init := es[..|es| - 1];
      assert forall j :: 0 <= j < |init| ==> init[j] == es[j];
      BrightnessOnlyKeepsColours(s, init);
    }
  }

  /** pixels.fill(color) */
  method FillStrip(pixels: array<Color>, color: Color)
    requires pixels.Length == NUM_LEDS
    modifies pixels
    ensures pixels[..] == Solid(color)
  {
    forall i | 0 <= i < pixels.Length {
      pixels[i] := color;
    }
  }

  /** One effect key on the strip. */
  method ApplyEffect(pixels: array<Color>, e: Effect)
    requires pixels.Length == NUM_LEDS
    modifies pixels
    ensures pixels[..] == AfterEffect(old(pixels[..]), e)
  {
    match e {
      case Chase(c) =>
        var _ := ColorChase(c, pixels);
        assert pixels[..] == Solid(c);
      case Rainbow =>
        var _ := RainbowCycle(pixels);
      case Fill(c) =>
        FillStrip(pixels, c);
      case Brightness(_) =>
    }
  }

  /** The first loop of color_pixels: the effect keys, in the order the command holds them. */
  method ApplyEffects(pixels: array<Color>, es: seq<Effect>)
    requires pixels.Length == NUM_LEDS
    modifies pixels
    ensures pixels[..] == AfterEffects(old(pixels[..]), es)
  {
    var i := 0;
    while i < |es|
      invariant 0 <= i <= |es|
      invariant pixels[..] == AfterEffects(old(pixels[..]), es[..i])
    {
      assert es[..i + 1][..i] == es[..i];
      ApplyEffect(pixels, es[i]);
      i := i + 1;
    }
    assert es[..i] == es;
  }

  /**
   * main()'s start-up sequence: black, the six colour chases, one rainbow
   * cycle, then black again with pixel 0 green, whatever the strip held.
   */
  method Fireworks(pixels: array<Color>)
    requires pixels.Length == NUM_LEDS
    modifies pixels
    ensures pixels[0] == GREEN
    ensures forall i :: 1 <= i < NUM_LEDS ==> pixels[i] == BLACK
  {
    var show := [Fill(BLACK), Fill(BLACK), Chase(RED), Chase(YELLOW), Chase(GREEN), Chase(CYAN),
                 Chase(BLUE), Chase(PURPLE), Rainbow, Fill(BLACK)];
    ghost var before := pixels[..];
    ApplyEffects(pixels, show);
    LastPaintWins(before, before, show, |show| - 1);
    pixels[0] := GREEN;
  }

  // ---------------------------------------------------------------------------
  // Writes to single pixels: pixels[ind] = value

  /** One pixels[index] = color assignment. */
  datatype Write = Write(index: int, color: Color)

  /** A pixel index the strip accepts: negatives count from the end. */
  predicate InStrip(index: int, n: nat) { -(n as int) <= index < n }

  function Slot(index: int, n: nat): (k: nat)
    requires InStrip(index, n)
    ensures k < n
  {
    if index < 0 then index + n else index
  }

  predicate AllInStrip(ws: seq<Write>, n: nat)
  {
    forall i :: 0 <= i < |ws| ==> InStrip(ws[i].index, n)
  }

  /** The colours after performing the writes in order. */
  function ApplyWrites(s: seq<Color>, ws: seq<Write>): (r: seq<Color>)
    requires AllInStrip(ws, |s|)
    ensures |r| == |s|
  {
    if |ws| == 0 then s
    else
      var w := ws[|ws| - 1];
      ApplyWrites(s, ws[..|ws| - 1])[Slot(w.index, |s|) := w.color]
  }

  lemma ApplyWritesSnoc(s: seq<Color>, ws: seq<Write>, w: Write)
    requires AllInStrip(ws, |s|) && InStrip(w.index, |s|)
    ensures AllInStrip(ws + [w], |s|)
    ensures ApplyWrites(s, ws + [w]) == ApplyWrites(s, ws)[Slot(w.index, |s|) := w.color]
  {
    assert forall i :: 0 <= i < |ws| ==> ws[i] == (ws + [w])[i];
    assert (ws + [w])[..|ws|] == ws;
  }

  /** The colour of pixel k after the writes: that of the last write to it, or the old one. */
  function LastWrite(ws: seq<Write>, n: nat, k: nat, default: Color): Color
    requires AllInStrip(ws, n)
  {
    if |ws| == 0 then default
    else if Slot(ws[|ws| - 1].index, n) == k then ws[|ws| - 1].color
    else LastWrite(ws[..|ws| - 1], n, k, default)
  }

  /** Every pixel ends up with the colour of the last write aimed at it; the others keep theirs. */
  lemma {:induction false} ApplyWritesAt(s: seq<Color>, ws: seq<Write>, k: nat)
    requires AllInStrip(ws, |s|) && k < |s|
    ensures ApplyWrites(s, ws)[k] == LastWrite(ws, |s|, k, s[k])
  {
    if |ws| > 0 {
      var init := ws[..|ws| - 1];
      assert AllInStrip(init, |s|);
      ApplyWritesAt(s, init, k);
    }
  }

  /** A pixel no write is aimed at keeps its colour. */
  lemma {:induction false} UntouchedPixelKept(s: seq<Color>, ws: seq<Write>, k: nat)
    requires AllInStrip(ws, |s|) && k < |s|
    requires forall i :: 0 <= i < |ws| ==> Slot(ws[i].index, |s|) != k
    ensures ApplyWrites(s, ws)[k] == s[k]
  {
    if |ws| > 0 {
      var init := ws[..|ws| - 1];
      assert forall i :: 0 <= i < |init| ==> init[i] == ws[i];
      UntouchedPixelKept(s, init, k);
    }
  }
}
