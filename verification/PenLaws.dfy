/** What each SGR parameter does to a pen, over src/client/pen.rs:58-192 and said of the text alone. */
module PenLaws {
  import opened Pens
  import opened Text
  import opened Wrappers

  // ----- Writing a sequence -----

  /** One sequence of some parameters; a reset if there are none. */
  function Sgr(codes: seq<nat>): string {
    [ESC] + ("[" + ((if codes == [] then "" else Decimal(codes[0]) + Spelled(codes[1..])) + "m"))
  }

  predicate AreParams(codes: seq<nat>) {
    forall i | 0 <= i < |codes| :: codes[i] < 0x1_0000
  }

  // ----- Sequences one after another -----

  /** The bytes that end a sequence. */
  predicate Ends(c: char) {
    0x40 <= c as int <= 0x7E
  }

  lemma {:induction false} SplitAtLast(front: string, sep: char, piece: string)
    requires sep !in piece
    ensures Split(front + [sep] + piece, sep) == Split(front, sep) + [piece]
  {
    var s := front + [sep] + piece;
    if front == "" {
      SplitAtSeparator("", sep, piece);
      SplitWithoutSeparator(piece, sep);
      assert "" + [sep] + piece == s;
    } else {
      assert s[1..] == front[1..] + [sep] + piece;
      SplitAtLast(front[1..], sep, piece);
    }
  }

  lemma PieceIsRead(seqs: string, piece: string)
    requires ESC !in piece
    ensures PenAfter(seqs + [ESC] + piece) ==
            match BodyOf(piece) case Some(body) => Applied(PenAfter(seqs), Params(body)) case None => PenAfter(seqs)
  {
    hide Split, BodyOf, Applied, Params;
    SplitAtLast(seqs, ESC, piece);
    var pieces := Split(seqs, ESC) + [piece];
    assert pieces[..|pieces| - 1] == Split(seqs, ESC);
  }

  /** A body, the m that ends it and whatever is written after. */
  lemma BodyIsFound(body: string, text: string)
    requires forall i | 0 <= i < |body| :: !Ends(body[i])
    ensures BodyOf("[" + (body + "m" + text)) == Some(body)
  {
    hide FirstFinal;
    var rest := body + "m" + text;
    assert ("[" + rest)[1..] == rest;
    FirstFinalIs(rest, |body|);
    assert rest[..|body|] == body && rest[|body|] == 'm';
  }

  lemma {:induction false} FirstFinalIs(s: string, i: nat)
    requires i < |s| && Ends(s[i]) && forall k | 0 <= k < i :: !Ends(s[k])
    ensures FirstFinal(s) == Some(i)
  {
    if i > 0 { FirstFinalIs(s[1..], i - 1); }
  }

  lemma NoneOfItsOwn(body: string, text: string)
    requires ESC !in body && ESC !in text
    ensures ESC !in "[" + (body + "m" + text)
  {
  }

  /** A sequence with some text after it does what its body says to the pen before it. */
  lemma BodyIsRead(seqs: string, body: string, text: string)
    requires ESC !in body && ESC !in text && forall i | 0 <= i < |body| :: !Ends(body[i])
    ensures PenAfter(seqs + [ESC] + ("[" + (body + "m" + text))) == Applied(PenAfter(seqs), Params(body))
  {
    hide PenAfter, BodyOf, Applied, Params;
    NoneOfItsOwn(body, text);
    BodyIsFound(body, text);
    PieceIsRead(seqs, "[" + (body + "m" + text));
  }

  lemma SgrIsRead(seqs: string, codes: seq<nat>, text: string)
    requires AreParams(codes) && ESC !in text
    ensures PenAfter(seqs + Sgr(codes) + text) == Applied(PenAfter(seqs), if codes == [] then [0] else codes)
  {
    hide PenAfter, Applied;
    var body := if codes == [] then "" else Decimal(codes[0]) + Spelled(codes[1..]);
    BodyOfCodes(codes, body);
    BodyIsRead(seqs, body, text);
    assert seqs + Sgr(codes) + text == seqs + [ESC] + ("[" + (body + "m" + text));
  }

  lemma BodyOfCodes(codes: seq<nat>, body: string)
    requires AreParams(codes) && body == if codes == [] then "" else Decimal(codes[0]) + Spelled(codes[1..])
    ensures ESC !in body && forall i | 0 <= i < |body| :: !Ends(body[i])
    ensures Params(body) == if codes == [] then [0] else codes
  {
    if codes == [] {
      SplitWithoutSeparator("", ';');
      assert Param("") == 0;
      assert [""][1..] == [];
    } else {
      hide Decimal, Spelled, Split, Each;
      SpelledIsInside(codes[1..]);
      DigitsInside(codes[0]);
      SpelledReads(Decimal(codes[0]), codes[1..]);
      ParseOfDecimal(codes[0]);
      assert codes == [codes[0]] + codes[1..];
    }
  }

  lemma DigitsInside(n: nat)
    ensures IsInside(Decimal(n)) && ';' !in Decimal(n)
  {
    var digits := Decimal(n);
    forall i | 0 <= i < |digits| ensures IsDigit(digits[i]) { assert digits[i] in digits; }
  }

  /** With nothing written a pen is plain. */
  lemma NothingIsPlain()
    ensures PenAfter("") == PLAIN
  {
    assert [""][..0] == [] && BodyOf("") == None;
  }

  /** Text after a sequence does not change what it did. */
  lemma TextChangesNothing(seqs: string, codes: seq<nat>, text: string)
    requires AreParams(codes) && ESC !in text
    ensures PenAfter(seqs + Sgr(codes) + text) == PenAfter(seqs + Sgr(codes))
  {
    hide PenAfter, Applied, Sgr;
    SgrIsRead(seqs, codes, text);
    SgrIsRead(seqs, codes, "");
    assert seqs + Sgr(codes) + "" == seqs + Sgr(codes);
  }

  /** What is not a sequence that ends in an m is no pen: another sequence, one cut short, or no sequence at all. */
  lemma OthersAreSkipped(seqs: string, piece: string)
    requires ESC !in piece
    requires piece == "" || piece[0] != '[' || (forall k | 1 <= k < |piece| :: !Ends(piece[k]))
             || exists i :: 0 < i < |piece| && Ends(piece[i]) && piece[i] != 'm' && forall k | 1 <= k < i :: !Ends(piece[k])
    ensures PenAfter(seqs + [ESC] + piece) == PenAfter(seqs)
  {
    hide PenAfter, Applied, FirstFinal;
    PieceIsRead(seqs, piece);
    if piece != "" && piece[0] == '[' {
      if i :| 0 < i < |piece| && Ends(piece[i]) && piece[i] != 'm' && forall k | 1 <= k < i :: !Ends(piece[k]) {
        FirstFinalIs(piece[1..], i - 1);
      }
    }
  }

  // ----- One parameter -----

  lemma OneCode(seqs: string, code: nat)
    requires code < 0x1_0000 && code != 38 && code != 48
    ensures PenAfter(seqs + Sgr([code])) == Set(PenAfter(seqs), code)
  {
    hide PenAfter, Sgr, Set;
    SgrIsRead(seqs, [code], "");
    assert seqs + Sgr([code]) + "" == seqs + Sgr([code]);
    assert [code][1..] == [];
  }

  /** What turns each thing on does that to whatever pen there was, and no more; and a reset is a plain pen. */
  lemma OnCodes(seqs: string)
    ensures var pen := PenAfter(seqs);
            && PenAfter(seqs + Sgr([1])) == pen.(bold := true)
            && PenAfter(seqs + Sgr([2])) == pen.(faint := true)
            && PenAfter(seqs + Sgr([3])) == pen.(italic := true)
            && PenAfter(seqs + Sgr([4])) == pen.(underline := true)
            && PenAfter(seqs + Sgr([5])) == pen.(blink := true)
            && PenAfter(seqs + Sgr([7])) == pen.(inverse := true)
            && PenAfter(seqs + Sgr([9])) == pen.(strike := true)
            && PenAfter(seqs + Sgr([0])) == PLAIN
  {
    hide PenAfter, Sgr;
    OneCode(seqs, 1);
    OneCode(seqs, 2);
    OneCode(seqs, 3);
    OneCode(seqs, 4);
    OneCode(seqs, 5);
    OneCode(seqs, 7);
    OneCode(seqs, 9);
    OneCode(seqs, 0);
  }

  /** And what turns it off. */
  lemma OffCodes(seqs: string)
    ensures var pen := PenAfter(seqs);
            && PenAfter(seqs + Sgr([21])) == pen.(bold := false, faint := false)
            && PenAfter(seqs + Sgr([22])) == pen.(bold := false, faint := false)
            && PenAfter(seqs + Sgr([23])) == pen.(italic := false)
            && PenAfter(seqs + Sgr([24])) == pen.(underline := false)
            && PenAfter(seqs + Sgr([25])) == pen.(blink := false)
            && PenAfter(seqs + Sgr([27])) == pen.(inverse := false)
            && PenAfter(seqs + Sgr([29])) == pen.(strike := false)
            && PenAfter(seqs + Sgr([39])) == pen.(fg := None)
            && PenAfter(seqs + Sgr([49])) == pen.(bg := None)
  {
    hide PenAfter, Sgr;
    OneCode(seqs, 21);
    OneCode(seqs, 22);
    OneCode(seqs, 23);
    OneCode(seqs, 24);
    OneCode(seqs, 25);
    OneCode(seqs, 27);
    OneCode(seqs, 29);
    OneCode(seqs, 39);
    OneCode(seqs, 49);
  }

  /** The theme's sixteen by their short names, on either ground. */
  lemma ThemeColours(seqs: string, i: nat)
    requires i < 8
    ensures var pen := PenAfter(seqs);
            && PenAfter(seqs + Sgr([30 + i])) == pen.(fg := Some(Indexed(i)))
            && PenAfter(seqs + Sgr([40 + i])) == pen.(bg := Some(Indexed(i)))
            && PenAfter(seqs + Sgr([90 + i])) == pen.(fg := Some(Indexed(8 + i)))
            && PenAfter(seqs + Sgr([100 + i])) == pen.(bg := Some(Indexed(8 + i)))
  {
    hide PenAfter, Sgr;
    OneCode(seqs, 30 + i);
    OneCode(seqs, 40 + i);
    OneCode(seqs, 90 + i);
    OneCode(seqs, 100 + i);
  }

  /** Any other number there is does nothing. */
  lemma OtherCodes(seqs: string, code: nat)
    requires code < 0x1_0000
    requires code == 6 || code == 8 || 10 <= code <= 20 || code == 26 || code == 28 || 50 <= code < 90 || code == 98 || code == 99
             || code >= 108
    ensures PenAfter(seqs + Sgr([code])) == PenAfter(seqs)
  {
    hide PenAfter, Sgr;
    OneCode(seqs, code);
  }

  /** A parameter that is no number is a reset. */
  lemma UnreadableResets(seqs: string, body: string)
    requires ESC !in body && ';' !in body && (forall i | 0 <= i < |body| :: !Ends(body[i])) && ParseU16(body).None?
    ensures PenAfter(seqs + [ESC] + ("[" + (body + "m" + ""))) == PLAIN
  {
    hide PenAfter;
    BodyIsRead(seqs, body, "");
    SplitWithoutSeparator(body, ';');
    assert [body][1..] == [] && Params(body) == [0];
    assert [0][1..] == [];
  }

  // ----- Parameters together -----

  /** One parameter, or all of a colour. */
  predicate IsWhole(codes: seq<nat>) {
    && AreParams(codes) && codes != []
    && (codes[0] != 38 && codes[0] != 48 ==> |codes| == 1)
    && (codes[0] == 38 || codes[0] == 48 ==>
          || (|codes| == 3 && codes[1] == 5 && codes[2] < 256)
          || (|codes| == 5 && codes[1] == 2 && codes[2] < 256 && codes[3] < 256 && codes[4] < 256))
  }

  lemma WholeIsApplied(pen: Pen, whole: seq<nat>, rest: seq<nat>)
    requires IsWhole(whole)
    ensures Applied(pen, whole + rest) == Applied(Applied(pen, whole), rest)
  {
    hide Applied, Set;
    var all := whole + rest;
    AppliedAt(pen, all, 0);
    AppliedAt(pen, whole, 0);
    assert all[0..] == all && whole[0..] == whole && all[|whole|..] == rest && whole[|whole|..] == [];
    WholeColour(whole, rest);
    NothingApplied(if whole[0] == 38 then pen.(fg := ColourOf(whole[1..]).0)
                   else if whole[0] == 48 then pen.(bg := ColourOf(whole[1..]).0) else Set(pen, whole[0]));
  }

  lemma WholeColour(whole: seq<nat>, rest: seq<nat>)
    requires IsWhole(whole)
    ensures whole[0] == 38 || whole[0] == 48 ==>
              && ColourOf((whole + rest)[1..]) == ColourOf(whole[1..]) && ColourOf(whole[1..]).1 == |whole| - 1
              && ColourOf(whole[1..]).0 ==
                 Some(if |whole| == 3 then Indexed(whole[2]) else Direct(whole[2], whole[3], whole[4]))
  {
  }

  /** A sequence of several parameters is as many sequences. */
  lemma TogetherOrApart(seqs: string, whole: seq<nat>, rest: seq<nat>)
    requires IsWhole(whole) && AreParams(rest) && rest != []
    ensures PenAfter(seqs + Sgr(whole + rest)) == PenAfter(seqs + Sgr(whole) + Sgr(rest))
  {
    hide PenAfter, Sgr, Applied;
    SgrIsRead(seqs, whole + rest, "");
    SgrIsRead(seqs, whole, "");
    SgrIsRead(seqs + Sgr(whole), rest, "");
    assert seqs + Sgr(whole + rest) + "" == seqs + Sgr(whole + rest) && seqs + Sgr(whole) + "" == seqs + Sgr(whole);
    assert seqs + Sgr(whole) + Sgr(rest) + "" == seqs + Sgr(whole) + Sgr(rest);
    WholeIsApplied(PenAfter(seqs), whole, rest);
  }

  /** Any colour, after a 38 for the glyph and a 48 for the ground. */
  lemma ColoursAreRead(seqs: string, colour: Colour)
    ensures var pen, numbers := PenAfter(seqs), match colour case Indexed(at) => [5, at] case Direct(r, g, b) => [2, r, g, b];
            && PenAfter(seqs + Sgr([38] + numbers)) == pen.(fg := Some(colour))
            && PenAfter(seqs + Sgr([48] + numbers)) == pen.(bg := Some(colour))
  {
    hide PenAfter, Sgr, Applied;
    var numbers := match colour case Indexed(at) => [5, at] case Direct(r, g, b) => [2, r, g, b];
    ColourIsApplied(PenAfter(seqs), 38, numbers);
    ColourIsApplied(PenAfter(seqs), 48, numbers);
    SgrIsRead(seqs, [38] + numbers, "");
    SgrIsRead(seqs, [48] + numbers, "");
    assert seqs + Sgr([38] + numbers) + "" == seqs + Sgr([38] + numbers);
    assert seqs + Sgr([48] + numbers) + "" == seqs + Sgr([48] + numbers);
  }

  lemma ColourIsApplied(pen: Pen, code: nat, numbers: seq<nat>)
    requires (code == 38 || code == 48) && IsWhole([code] + numbers)
    ensures var colour := Some(if |numbers| == 2 then Indexed(numbers[1]) else Direct(numbers[1], numbers[2], numbers[3]));
            Applied(pen, [code] + numbers) == if code == 38 then pen.(fg := colour) else pen.(bg := colour)
  {
    hide Applied, ColourOf;
    var whole := [code] + numbers;
    AppliedAt(pen, whole, 0);
    WholeColour(whole, []);
    assert whole[0..] == whole && whole[1 + |numbers|..] == [];
    NothingApplied(pen.(fg := ColourOf(whole[1..]).0));
    NothingApplied(pen.(bg := ColourOf(whole[1..]).0));
  }

  /** What of a colour was written that is not one: up to the first number that shows it. */
  predicate IsBroken(numbers: seq<nat>, last: bool) {
    || (numbers == [] && last)
    || (|numbers| == 1 && (last || (numbers[0] != 5 && numbers[0] != 2)))
    || (|numbers| == 2 && numbers[0] == 5 && numbers[1] >= 256)
    || (|numbers| == 2 && numbers[0] == 2 && (last || numbers[1] >= 256))
    || (|numbers| == 3 && numbers[0] == 2 && numbers[1] < 256 && (last || numbers[2] >= 256))
    || (|numbers| == 4 && numbers[0] == 2 && numbers[1] < 256 && numbers[2] < 256 && numbers[3] >= 256)
  }

  /** A broken colour is no colour, and the parameters after it are read on their own. */
  lemma BrokenColours(seqs: string, numbers: seq<nat>, rest: seq<nat>)
    requires AreParams(numbers) && AreParams(rest) && IsBroken(numbers, rest == [])
    ensures PenAfter(seqs + Sgr([38] + numbers + rest)) == PenAfter(seqs + Sgr([39] + rest))
    ensures PenAfter(seqs + Sgr([48] + numbers + rest)) == PenAfter(seqs + Sgr([49] + rest))
  {
    hide PenAfter, Sgr, Applied, IsBroken;
    BrokenIsApplied(PenAfter(seqs), 38, numbers, rest);
    BrokenIsApplied(PenAfter(seqs), 48, numbers, rest);
    SgrAlone(seqs, [38] + numbers + rest);
    SgrAlone(seqs, [48] + numbers + rest);
    SgrAlone(seqs, [39] + rest);
    SgrAlone(seqs, [49] + rest);
  }

  lemma SgrAlone(seqs: string, codes: seq<nat>)
    requires codes != [] && forall i | 0 <= i < |codes| :: codes[i] < 0x1_0000
    ensures PenAfter(seqs + Sgr(codes)) == Applied(PenAfter(seqs), codes)
  {
    hide PenAfter, Applied, Sgr;
    SgrIsRead(seqs, codes, "");
    assert seqs + Sgr(codes) + "" == seqs + Sgr(codes);
  }

  lemma BrokenIsApplied(pen: Pen, code: nat, numbers: seq<nat>, rest: seq<nat>)
    requires (code == 38 || code == 48) && IsBroken(numbers, rest == [])
    ensures Applied(pen, [code] + numbers + rest) == Applied(pen, [code + 1] + rest)
  {
    hide Applied;
    var all, short := [code] + numbers + rest, [code + 1] + rest;
    AppliedAt(pen, all, 0);
    AppliedAt(pen, short, 0);
    assert all[0..] == all && short[0..] == short && short[1..] == rest;
    assert all[1..] == numbers + rest && all[1 + |numbers|..] == rest;
    BrokenIsNone(numbers, rest);
  }

  lemma BrokenIsNone(numbers: seq<nat>, rest: seq<nat>)
    requires IsBroken(numbers, rest == [])
    ensures ColourOf(numbers + rest) == (None, |numbers|)
  {
    if rest == [] { assert numbers + rest == numbers; }
  }

  // ----- A whole pen -----

  function OneIf(on: bool, code: nat): seq<nat> {
    if on then [code] else []
  }

  /** A colour as shortly as it can be said: the sixteen from `low` and `high`, the rest after `long`. */
  function Shortly(colour: Option<Colour>, low: nat, high: nat, long: nat): seq<nat> {
    match colour
    case None => []
    case Some(Indexed(at)) => if at < 8 then [low + at] else if at < 16 then [high + at - 8] else [long, 5, at]
    case Some(Direct(r, g, b)) => [long, 2, r, g, b]
  }

  /** After some sequences, a pen spelled out from a plain one as a program would. */
  function Spell(seqs: string, pen: Pen): string {
    SpellLooks(seqs + Sgr([0]), pen) + Apart(Shortly(pen.fg, 30, 90, 38)) + Apart(Shortly(pen.bg, 40, 100, 48))
  }

  function SpellLooks(seqs: string, pen: Pen): string {
    SpellWeight(seqs, pen) + Apart(OneIf(pen.blink, 5)) + Apart(OneIf(pen.inverse, 7)) + Apart(OneIf(pen.strike, 9))
  }

  function SpellWeight(seqs: string, pen: Pen): string {
    seqs + Apart(OneIf(pen.bold, 1)) + Apart(OneIf(pen.faint, 2)) + Apart(OneIf(pen.italic, 3)) + Apart(OneIf(pen.underline, 4))
  }

  function Apart(codes: seq<nat>): string {
    if codes == [] then "" else Sgr(codes)
  }

  lemma WeightIsRead(seqs: string, pen: Pen)
    requires PenAfter(seqs) == PLAIN
    ensures PenAfter(SpellWeight(seqs, pen)) ==
            PLAIN.(bold := pen.bold, faint := pen.faint, italic := pen.italic, underline := pen.underline)
  {
    hide PenAfter, Apart, OneIf;
    AttributeIsRead(seqs, pen.bold, 1);
    var s1 := seqs + Apart(OneIf(pen.bold, 1));
    AttributeIsRead(s1, pen.faint, 2);
    var s2 := s1 + Apart(OneIf(pen.faint, 2));
    AttributeIsRead(s2, pen.italic, 3);
    AttributeIsRead(s2 + Apart(OneIf(pen.italic, 3)), pen.underline, 4);
  }

  lemma LooksAreRead(seqs: string, pen: Pen)
    requires PenAfter(seqs) == PLAIN
    ensures PenAfter(SpellLooks(seqs, pen)) == pen.(fg := None, bg := None)
  {
    hide PenAfter, Apart, OneIf, SpellWeight;
    WeightIsRead(seqs, pen);
    var s0 := SpellWeight(seqs, pen);
    AttributeIsRead(s0, pen.blink, 5);
    var s1 := s0 + Apart(OneIf(pen.blink, 5));
    AttributeIsRead(s1, pen.inverse, 7);
    AttributeIsRead(s1 + Apart(OneIf(pen.inverse, 7)), pen.strike, 9);
  }

  /** Any pen there is can be spelled, after anything at all, and is read as it was. */
  lemma SpelledPenIsRead(seqs: string, pen: Pen)
    ensures PenAfter(Spell(seqs, pen)) == pen
  {
    hide PenAfter, Sgr, Apart, SpellLooks, Shortly;
    OnCodes(seqs);
    LooksAreRead(seqs + Sgr([0]), pen);
    var looks := SpellLooks(seqs + Sgr([0]), pen);
    GlyphIsRead(looks, pen.fg);
    GroundIsRead(looks + Apart(Shortly(pen.fg, 30, 90, 38)), pen.bg);
  }

  lemma AttributeIsRead(seqs: string, on: bool, code: nat)
    requires code in {1, 2, 3, 4, 5, 7, 9}
    ensures var pen, after := PenAfter(seqs), PenAfter(seqs + Apart(OneIf(on, code)));
            after == if !on then pen
                     else if code == 1 then pen.(bold := true) else if code == 2 then pen.(faint := true)
                     else if code == 3 then pen.(italic := true) else if code == 4 then pen.(underline := true)
                     else if code == 5 then pen.(blink := true) else if code == 7 then pen.(inverse := true)
                     else pen.(strike := true)
  {
    hide PenAfter, Sgr;
    if on { OnCodes(seqs); } else { assert seqs + "" == seqs; }
  }

  lemma GlyphIsRead(seqs: string, colour: Option<Colour>)
    ensures PenAfter(seqs + Apart(Shortly(colour, 30, 90, 38))) ==
            if colour.None? then PenAfter(seqs) else PenAfter(seqs).(fg := colour)
  {
    hide PenAfter, Sgr;
    match colour
    case None => assert seqs + "" == seqs;
    case Some(Direct(r, g, b)) =>
      ColoursAreRead(seqs, Direct(r, g, b));
      assert [38] + [2, r, g, b] == [38, 2, r, g, b];
    case Some(Indexed(at)) =>
      ColoursAreRead(seqs, Indexed(at));
      assert [38] + [5, at] == [38, 5, at];
      if at < 16 { ThemeColours(seqs, if at < 8 then at else at - 8); }
  }

  lemma GroundIsRead(seqs: string, colour: Option<Colour>)
    ensures PenAfter(seqs + Apart(Shortly(colour, 40, 100, 48))) ==
            if colour.None? then PenAfter(seqs) else PenAfter(seqs).(bg := colour)
  {
    hide PenAfter, Sgr;
    match colour
    case None => assert seqs + "" == seqs;
    case Some(Direct(r, g, b)) =>
      ColoursAreRead(seqs, Direct(r, g, b));
      assert [48] + [2, r, g, b] == [48, 2, r, g, b];
    case Some(Indexed(at)) =>
      ColoursAreRead(seqs, Indexed(at));
      assert [48] + [5, at] == [48, 5, at];
      if at < 16 { ThemeColours(seqs, if at < 8 then at else at - 8); }
  }

  // ----- What is painted -----

  /**
    A selected cell is on the band, its glyph in its own colour, which is the ground's
    where the two were swapped, as long as that can be read there; its attributes are
    as they were and nothing is swapped.
   */
  lemma SelectedCellIs(readable: Colour -> bool, seqs: string)
    ensures var was, now := PenAfter(seqs), PenAfter(SelectedAs(readable, PenAfter(seqs)));
            var own := if was.inverse then was.bg else was.fg;
            && now.bg == Some(Indexed(17)) && !now.inverse
            && (own.Some? && readable(own.value) ==> now.fg == own)
            && (own.Some? && !readable(own.value) ==> now.fg == Some(Indexed(255)))
            && (own.None? ==> now.fg == Some(Indexed(255)))
            && now == was.(fg := now.fg, bg := now.bg, inverse := false)
  {
    hide PenAfter, SelectedAs;
    SelectedReadsBack(readable, seqs);
  }

  /** A cell spelled out in any pen, and selected: what each of its parts comes to. */
  lemma SpelledCellSelected(readable: Colour -> bool, pen: Pen)
    ensures var now := PenAfter(SelectedAs(readable, PenAfter(Spell("", pen))));
            && now == pen.(fg := now.fg, bg := Some(Indexed(17)), inverse := false)
            && var own := if pen.inverse then pen.bg else pen.fg;
               now.fg == if own.Some? && readable(own.value) then own else Some(Indexed(255))
  {
    hide PenAfter, SelectedAs, Spell;
    SpelledPenIsRead("", pen);
    SelectedCellIs(readable, Spell("", pen));
  }
}
