/**
 * color_pixels in script/light_controller.py. Its effect loop pops each
 * effect key from the dictionary it is iterating over, so the first effect
 * key runs its effect and the next step of the iteration raises a
 * RuntimeError; only a command without effect keys reaches the per-pixel
 * pass. There a key int() accepts names a pixel; a value that is a string
 * is cleaned of brackets, braces, parentheses and spaces, split on commas
 * and read component by component with int(). A ValueError from the key or
 * from a component is logged and the entry skipped; an index outside the
 * strip raises an IndexError that nothing catches, leaving the earlier
 * assignments in place. The command is the JSON object's entries in
 * iteration order; its effect keys come with their values decoded as
 * effects.
 */
module ScriptLightController {
  import opened Wrappers
  import opened Text
  import opened LedEffects

  /** A command value: a string such as "(255, 0, 0)", or a JSON list passed on as it stands. */
  datatype Value = Text(s: string) | Components(c: Color)

  /** clean_char */
  const CLEAN_CHARS: seq<char> := ['[', ']', '{', '}', '(', ')', ' ']

  /** The characters of s that are not in chars, in order. */
  function WithoutChars(s: string, chars: seq<char>): (r: string)
    ensures |r| <= |s|
  {
    if |s| == 0 then "" else (if s[0] in chars then "" else [s[0]]) + WithoutChars(s[1..], chars)
  }

  /** A character survives exactly when it occurs in s and is not one to remove. */
  lemma {:induction false} WithoutCharsMembers(s: string, chars: seq<char>)
    ensures forall x :: x in WithoutChars(s, chars) <==> x in s && x !in chars
  {
    if |s| > 0 {
      WithoutCharsMembers(s[1..], chars);
      assert s == [s[0]] + s[1..];
    }
  }

  /** Removing one more character from a partly cleaned string. */
  lemma {:induction false} WithoutCharsExtend(s: string, chars: seq<char>, c: char)
    ensures RemoveChar(WithoutChars(s, chars), c) == WithoutChars(s, chars + [c])
  {
    if |s| > 0 {
      var h := if s[0] in chars then "" else [s[0]];
      WithoutCharsExtend(s[1..], chars, c);
      RemoveCharAppend(h, WithoutChars(s[1..], chars), c);
      assert s[0] in chars + [c] <==> s[0] in chars || s[0] == c;
      if h != "" {
        assert h[1..] == "";
        assert RemoveChar(h, c) == (if s[0] == c then "" else h) + RemoveChar("", c);
      }
    }
  }

  lemma {:induction false} WithoutCharsAppend(a: string, b: string, chars: seq<char>)
    ensures WithoutChars(a + b, chars) == WithoutChars(a, chars) + WithoutChars(b, chars)
  {
    if |a| == 0 {
      assert a + b == b;
    } else {
      assert (a + b)[0] == a[0];
      assert (a + b)[1..] == a[1..] + b;
      WithoutCharsAppend(a[1..], b, chars);
    }
  }

  /** A string none of whose characters are to be removed is kept whole. */
  lemma {:induction false} WithoutCharsNone(s: string, chars: seq<char>)
    requires forall i :: 0 <= i < |s| ==> s[i] !in chars
    ensures WithoutChars(s, chars) == s
  {
    if |s| > 0 {
      WithoutCharsNone(s[1..], chars);
    }
  }

  /** for ch in clean_char: cmd = cmd.replace(ch, '') */
  method CleanCommand(cmd: string) returns (r: string)
    ensures r == WithoutChars(cmd, CLEAN_CHARS)
    ensures forall x :: x in r <==> x in cmd && x !in CLEAN_CHARS
  {
    r := cmd;
    var i := 0;
    WithoutCharsNone(cmd, []);
    assert CLEAN_CHARS[..0] == [];
    while i < |CLEAN_CHARS|
      invariant 0 <= i <= |CLEAN_CHARS|
      invariant r == WithoutChars(cmd, CLEAN_CHARS[..i])
    {
      WithoutCharsExtend(cmd, CLEAN_CHARS[..i], CLEAN_CHARS[i]);
      assert CLEAN_CHARS[..i] + [CLEAN_CHARS[i]] == CLEAN_CHARS[..i + 1];
      r := RemoveChar(r, CLEAN_CHARS[i]);
      i := i + 1;
    }
    assert CLEAN_CHARS[..i] == CLEAN_CHARS;
    WithoutCharsMembers(cmd, CLEAN_CHARS);
  }

  /** [int(n) for n in parts]: None stands for the ValueError of the first piece int() rejects. */
  function ParseInts(parts: seq<string>): (r: Option<seq<int>>)
    ensures r.Some? ==> |r.value| == |parts|
  {
    if |parts| == 0 then Some([])
    else
      match PyInt(parts[0])
      case None => None
      case Some(v) =>
        match ParseInts(parts[1..])
        case None => None
        case Some(vs) => Some([v] + vs)
  }

  /** The list comprehension succeeds exactly when int() accepts every piece, and reads each in place. */
  lemma {:induction false} ParseIntsMeaning(parts: seq<string>)
    ensures ParseInts(parts).Some? <==> forall i :: 0 <= i < |parts| ==> PyInt(parts[i]).Some?
    ensures ParseInts(parts).Some? ==> forall i :: 0 <= i < |parts| ==> PyInt(parts[i]) == Some(ParseInts(parts).value[i])
  {
    if |parts| > 0 {
      ParseIntsMeaning(parts[1..]);
      assert forall i :: 1 <= i < |parts| ==> parts[i] == parts[1..][i - 1];
    }
  }

  /** The colour an entry's value stands for, None when a component raises ValueError. */
  function ParseValue(v: Value): Option<Color>
  {
    match v
    case Components(c) => Some(c)
    case Text(s) => ParseInts(Split(WithoutChars(s, CLEAN_CHARS), ','))
  }

  /**
   * One entry of the loop on the colours so far: unchanged when int() rejects
   * the key or a component, None when the index raises an IndexError.
   */
  function Step(s: seq<Color>, e: (string, Value)): (r: Option<seq<Color>>)
    ensures r.Some? ==> |r.value| == |s|
  {
    match PyInt(e.0)
    case None => Some(s)
    case Some(k) =>
      match ParseValue(e.1)
      case None => Some(s)
      case Some(c) => if InStrip(k, |s|) then Some(s[Slot(k, |s|) := c]) else None
  }

  /**
   * The loop over the whole command: Success with the final colours, or
   * Failure with the colours at the moment the IndexError was raised.
   */
  function Run(s: seq<Color>, command: seq<(string, Value)>): (r: Result<seq<Color>, seq<Color>>)
    ensures r.Success? ==> |r.value| == |s|
    ensures r.Failure? ==> |r.error| == |s|
  {
    if |command| == 0 then Success(s)
    else
      match Run(s, command[..|command| - 1])
      case Failure(p) => Failure(p)
      case Success(p) =>
        match Step(p, command[|command| - 1])
        case None => Failure(p)
        case Some(q) => Success(q)
  }

  lemma RunSnoc(s: seq<Color>, command: seq<(string, Value)>, i: nat)
    requires i < |command|
    ensures Run(s, command[..i + 1]) ==
      match Run(s, command[..i])
      case Failure(p) => Failure(p)
      case Success(p) =>
        match Step(p, command[i])
        case None => Failure(p)
        case Some(q) => Success(q)
  {
    assert command[..i + 1][..i] == command[..i];
  }

  /** Once an IndexError is raised the rest of the command is not looked at. */
  lemma {:induction false} RunFailureSticks(s: seq<Color>, command: seq<(string, Value)>, i: nat)
    requires i <= |command| && Run(s, command[..i]).Failure?
    ensures Run(s, command) == Run(s, command[..i])
    decreases |command| - i
  {
    if i < |command| {
      RunSnoc(s, command, i);
      RunFailureSticks(s, command, i + 1);
    } else {
      assert command[..i] == command;
    }
  }

  /**
   * The second loop of color_pixels: int(key), the cleaning and splitting of
   * a string value, and the assignment; a ValueError skips the entry, an
   * IndexError ends the request (ok is false). The returned state lists
   * every pixel.
   */
  method ColorPixels(pixels: array<Color>, command: seq<(string, Value)>) returns (ok: bool, state: seq<Color>)
    modifies pixels
    ensures Run(old(pixels[..]), command) == if ok then Success(pixels[..]) else Failure(pixels[..])
    ensures state == pixels[..]
  {
    var i := 0;
    ok := true;
    while i < |command|
      invariant 0 <= i <= |command|
      invariant Run(old(pixels[..]), command[..i]) == Success(pixels[..])
    {
      RunSnoc(old(pixels[..]), command, i);
      var key, value := command[i].0, command[i].1;
      match PyInt(key) {
        case Some(ind) =>
          var cmd: Option<Color>;
          match value {
            case Components(c) =>
              cmd := Some(c);
            case Text(t) =>
              var cleaned := CleanCommand(t);
              cmd := ParseInts(Split(cleaned, ','));
          }
          if cmd.Some? {
            if !(-pixels.Length <= ind < pixels.Length) {
              ok := false;
              RunFailureSticks(old(pixels[..]), command, i + 1);
              state := pixels[..];
              return;
            }
            var slot := if ind < 0 then ind + pixels.Length else ind;
            pixels[slot] := cmd.value;
          }
        case None =>
      }
      i := i + 1;
    }
    assert command[..i] == command;
    state := pixels[..];
  }

  /**
   * The whole request: with an effect key, the first one's effect and then
   * the RuntimeError; without, the per-pixel pass. Failure carries the
   * colours at the exception.
   */
  function Handle(s: seq<Color>, effects: seq<Effect>, command: seq<(string, Value)>): Result<seq<Color>, seq<Color>>
    requires |s| == NUM_LEDS
  {
    if |effects| > 0 then Failure(AfterEffect(s, effects[0])) else Run(s, command)
  }

  /** color_pixels: ok is false when the RuntimeError or an IndexError ended the request. */
  method HandleColorPixels(pixels: array<Color>, effects: seq<Effect>, command: seq<(string, Value)>)
    returns (ok: bool, state: seq<Color>)
    requires pixels.Length == NUM_LEDS
    modifies pixels
    ensures Handle(old(pixels[..]), effects, command) == if ok then Success(state) else Failure(state)
    ensures state == pixels[..]
  {
    if |effects| > 0 {
      ApplyEffect(pixels, effects[0]);
      return false, pixels[..];
    }
    ok, state := ColorPixels(pixels, command);
  }

  /**
   * A command with an effect key never completes and never reaches its pixel
   * keys: the strip holds what the first effect left, whatever pixel writes
   * the command also asks for.
   */
  lemma EffectKeyEndsRequest(s: seq<Color>, effects: seq<Effect>, command: seq<(string, Value)>,
                             other: seq<(string, Value)>)
    requires |s| == NUM_LEDS && |effects| > 0
    ensures Handle(s, effects, command).Failure?
    ensures Handle(s, effects, command) == Handle(s, effects[..1], other)
  {
  }

  // ---------------------------------------------------------------------------
  // The writes a command asks for

  /** The write one entry asks for: none when int() rejects its key or a component. */
  function EntryWrites(e: (string, Value)): (ws: seq<Write>)
    ensures |ws| <= 1
  {
    match PyInt(e.0)
    case None => []
    case Some(k) =>
      match ParseValue(e.1)
      case None => []
      case Some(c) => [Write(k, c)]
  }

  /** The pixel writes a command asks for, in order. */
  function Writes(command: seq<(string, Value)>): (ws: seq<Write>)
    ensures |ws| <= |command|
  {
    if |command| == 0 then []
    else Writes(command[..|command| - 1]) + EntryWrites(command[|command| - 1])
  }

  /** Every entry that parses names a pixel of the strip. */
  predicate KeysInStrip(command: seq<(string, Value)>, n: nat)
  {
    forall i :: 0 <= i < |command| ==> |EntryWrites(command[i])| == 1 ==> InStrip(EntryWrites(command[i])[0].index, n)
  }

  /**
   * When every entry that parses names a pixel of the strip the loop
   * completes, and its result is that of performing the requested writes.
   */
  lemma {:induction false} RunPerformsWrites(s: seq<Color>, command: seq<(string, Value)>)
    requires KeysInStrip(command, |s|)
    ensures AllInStrip(Writes(command), |s|)
    ensures Run(s, command) == Success(ApplyWrites(s, Writes(command)))
  {
    if |command| > 0 {
      var n := |command| - 1;
      var init := command[..n];
      assert KeysInStrip(init, |s|) by {
        assert forall i :: 0 <= i < |init| ==> init[i] == command[i];
      }
      RunPerformsWrites(s, init);
      var before := Writes(init);
      var last := EntryWrites(command[n]);
      if |last| == 1 {
        assert InStrip(last[0].index, |s|);
        ApplyWritesSnoc(s, before, last[0]);
        assert last == [last[0]];
      } else {
        assert before + [] == before;
      }
    }
  }

  /** The request fails with an IndexError exactly when an entry that parses lies outside the strip. */
  lemma {:induction false} RunFailsExactly(s: seq<Color>, command: seq<(string, Value)>)
    ensures Run(s, command).Failure? <==> !KeysInStrip(command, |s|)
  {
    if KeysInStrip(command, |s|) {
      RunPerformsWrites(s, command);
    } else if |command| > 0 {
      var n := |command| - 1;
      var init := command[..n];
      assert forall i :: 0 <= i < |init| ==> init[i] == command[i];
      RunFailsExactly(s, init);
      RunSnoc(s, command, n);
      assert command[..n + 1] == command;
      if KeysInStrip(init, |s|) {
        var p := Run(s, init).value;
        assert !(|EntryWrites(command[n])| == 1 ==> InStrip(EntryWrites(command[n])[0].index, |s|));
        StepOutOfStrip(p, command[n]);
      }
    }
  }

  /** An entry that parses to an index outside the strip raises the IndexError. */
  lemma StepOutOfStrip(p: seq<Color>, e: (string, Value))
    requires |EntryWrites(e)| == 1 && !InStrip(EntryWrites(e)[0].index, |p|)
    ensures Step(p, e).None?
  {
  }

  // ---------------------------------------------------------------------------
  // String colours

  /** The components written out with str(), as a client builds "(255, 0, 0)". */
  function IntStrings(cs: seq<int>): (parts: seq<string>)
    ensures |parts| == |cs|
  {
    seq(|cs|, i requires 0 <= i < |cs| => IntToString(cs[i]))
  }

  /** str(n) holds a sign and digits only: nothing the cleaning removes, no comma. */
  lemma IntToStringClean(n: int)
    ensures forall i :: 0 <= i < |IntToString(n)| ==> IntToString(n)[i] !in CLEAN_CHARS && IntToString(n)[i] != ','
  {
    var d := NatToString(if n < 0 then -n else n);
    assert forall i :: 0 <= i < |d| ==> IsDigit(d[i]);
  }

  /** Reading the pieces back with int() gives the components. */
  lemma {:induction false} ParseIntStrings(cs: seq<int>)
    ensures ParseInts(IntStrings(cs)) == Some(cs)
  {
    if |cs| > 0 {
      PyIntOfIntToString(cs[0]);
      assert IntStrings(cs)[1..] == IntStrings(cs[1..]);
      ParseIntStrings(cs[1..]);
      assert [cs[0]] + cs[1..] == cs;
    }
  }

  /** Nothing in p is removed by the cleaning. */
  predicate Clean(p: string)
  {
    forall i :: 0 <= i < |p| ==> p[i] !in CLEAN_CHARS
  }

  /** Cleaning ", "-joined pieces free of the cleaned characters leaves them joined by ",". */
  lemma {:induction false} CleanJoin(parts: seq<string>)
    requires forall k :: 0 <= k < |parts| ==> Clean(parts[k])
    ensures WithoutChars(Join(parts, ", "), CLEAN_CHARS) == Join(parts, ",")
  {
    if |parts| == 1 {
      WithoutCharsNone(parts[0], CLEAN_CHARS);
    } else if |parts| > 1 {
      var head, tail := parts[0], parts[1..];
      assert forall k :: 0 <= k < |tail| ==> tail[k] == parts[k + 1];
      CleanJoin(tail);
      assert Clean(head);
      WithoutCharsNone(head, CLEAN_CHARS);
      var rest := Join(tail, ", ");
      assert Join(parts, ", ") == head + (", " + rest);
      WithoutCharsAppend(head, ", " + rest, CLEAN_CHARS);
      WithoutCharsAppend(", ", rest, CLEAN_CHARS);
      assert WithoutChars(", ", CLEAN_CHARS) == ",";
      assert Join(parts, ",") == head + ("," + Join(tail, ","));
    }
  }

  /**
   * A colour written as "(c0, c1, ...)" (or with brackets or braces) reads
   * back as its components: the cleaning, the split and int() undo str(),
   * ", ".join and the enclosing pair.
   */
  lemma ColorStringRoundTrip(cs: seq<int>, open: char, close: char)
    requires |cs| >= 1 && open in CLEAN_CHARS && close in CLEAN_CHARS
    ensures ParseValue(Text([open] + Join(IntStrings(cs), ", ") + [close])) == Some(cs)
  {
    var parts := IntStrings(cs);
    forall k | 0 <= k < |parts|
      ensures Clean(parts[k]) && ',' !in parts[k]
    {
      IntToStringClean(cs[k]);
    }
    CleanJoin(parts);
    var body := Join(parts, ", ");
    WithoutCharsAppend([open] + body, [close], CLEAN_CHARS);
    WithoutCharsAppend([open], body, CLEAN_CHARS);
    assert WithoutChars([open], CLEAN_CHARS) == "";
    assert WithoutChars([close], CLEAN_CHARS) == "";
    assert "" + Join(parts, ",") + "" == Join(parts, ",");
    SplitJoin(parts, ',');
    ParseIntStrings(cs);
  }

  /** "(255, 0, 0)" becomes [255, 0, 0]. */
  lemma RedExample()
    ensures ParseValue(Text("(255, 0, 0)")) == Some([255, 0, 0])
  {
    ColorStringRoundTrip([255, 0, 0], '(', ')');
    DecimalExamples();
    assert IntStrings([255, 0, 0]) == ["255", "0", "0"];
    RedLiteral();
  }

  lemma RedLiteral()
    ensures ['('] + Join(["255", "0", "0"], ", ") + [')'] == "(255, 0, 0)"
  {
    JoinCons(["255", "0", "0"], ", ");
    JoinCons(["0", "0"], ", ");
    assert ["255", "0", "0"][1..] == ["0", "0"];
    assert ["0", "0"][1..] == ["0"];
    LiteralPieces();
  }

  lemma LiteralPieces()
    ensures "255" + (", " + ("0" + (", " + "0"))) == "255, 0, 0"
    ensures ['('] + "255, 0, 0" + [')'] == "(255, 0, 0)"
  {
  }

  lemma DecimalExamples()
    ensures IntToString(255) == "255" && IntToString(0) == "0"
  {
    assert NatToString(25) == NatToString(2) + [DigitChar(5)];
    assert NatToString(255) == NatToString(25) + [DigitChar(5)];
  }

  /** "()" cleans to "", and int("") raises ValueError: the entry changes nothing. */
  lemma EmptyColorSkipped(s: seq<Color>, key: string)
    ensures ParseValue(Text("()")) == None
    ensures Step(s, (key, Text("()"))) == Some(s)
  {
    assert WithoutChars("()", CLEAN_CHARS) == "";
    assert Split("", ',') == [""];
    assert Strip("") == "";
  }

  /** A command none of whose entries parses leaves every pixel as it was. */
  lemma {:induction false} UnparsedEntriesChangeNothing(s: seq<Color>, command: seq<(string, Value)>)
    requires forall i :: 0 <= i < |command| ==> EntryWrites(command[i]) == []
    ensures Run(s, command) == Success(s)
  {
    if |command| > 0 {
      var n := |command| - 1;
      assert forall i :: 0 <= i < n ==> command[..n][i] == command[i];
      UnparsedEntriesChangeNothing(s, command[..n]);
    }
  }
}
