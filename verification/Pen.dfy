/**
  src/client/pen.rs: what a selected cell is painted with, over whatever the line
  had set before it. The sequences are SGR's, section 8.3.117 of ECMA-48.
 */
module Pens {
  import opened Text
  import opened Wrappers

  type U8 = n: nat | n < 256

  datatype Colour = Indexed(at: U8) | Direct(r: U8, g: U8, b: U8)

  datatype Pen = Pen(fg: Option<Colour>, bg: Option<Colour>,
                     bold: bool, faint: bool, italic: bool, underline: bool, blink: bool, inverse: bool, strike: bool)

  const PLAIN := Pen(None, None, false, false, false, false, false, false, false)

  const BAND: U8 := 17

  const FALLBACK: U8 := 255

  const ESC: char := '\U{1B}'

  // ----- Reading a pen -----

  function IndexedAt(at: nat): Option<Colour> {
    if at < 256 then Some(Indexed(at)) else None
  }

  /** The colour after a 38 or a 48, and how many parameters it took, read or not. */
  function ColourOf(params: seq<nat>): (r: (Option<Colour>, nat))
    ensures r.1 <= |params|
  {
    if params == [] then (None, 0)
    else if params[0] == 5 then
      if |params| < 2 then (None, 1) else (IndexedAt(params[1]), 2)
    else if params[0] == 2 then
      if |params| < 2 then (None, 1)
      else if params[1] >= 256 || |params| < 3 then (None, 2)
      else if params[2] >= 256 || |params| < 4 then (None, 3)
      else (if params[3] < 256 then Some(Direct(params[1], params[2], params[3])) else None, 4)
    else (None, 1)
  }

  /** One parameter that is not a colour's. */
  function Set(pen: Pen, param: nat): Pen {
    if param == 0 then PLAIN
    else if param == 1 then pen.(bold := true)
    else if param == 2 then pen.(faint := true)
    else if param == 3 then pen.(italic := true)
    else if param == 4 then pen.(underline := true)
    else if param == 5 then pen.(blink := true)
    else if param == 7 then pen.(inverse := true)
    else if param == 9 then pen.(strike := true)
    else if param == 21 || param == 22 then pen.(bold := false, faint := false)
    else if param == 23 then pen.(italic := false)
    else if param == 24 then pen.(underline := false)
    else if param == 25 then pen.(blink := false)
    else if param == 27 then pen.(inverse := false)
    else if param == 29 then pen.(strike := false)
    else if 30 <= param <= 37 then pen.(fg := IndexedAt(param - 30))
    else if param == 39 then pen.(fg := None)
    else if 40 <= param <= 47 then pen.(bg := IndexedAt(param - 40))
    else if param == 49 then pen.(bg := None)
    else if 90 <= param <= 97 then pen.(fg := IndexedAt(param - 90 + 8))
    else if 100 <= param <= 107 then pen.(bg := IndexedAt(param - 100 + 8))
    else pen
  }

  function Applied(pen: Pen, params: seq<nat>): Pen
    decreases |params|
  {
    if params == [] then pen
    else if params[0] == 38 || params[0] == 48 then
      var (colour, took) := ColourOf(params[1..]);
      Applied(if params[0] == 38 then pen.(fg := colour) else pen.(bg := colour), params[1 + took..])
    else Applied(Set(pen, params[0]), params[1..])
  }

  /** A parameter nobody wrote, or nobody can read, is a zero. */
  function Param(text: string): nat {
    match ParseU16(text) case Some(n) => n case None => 0
  }

  function Params(body: string): (params: seq<nat>) {
    Each(Split(body, ';'))
  }

  function Each(pieces: seq<string>): (params: seq<nat>)
    ensures |params| == |pieces| && forall i | 0 <= i < |pieces| :: params[i] == Param(pieces[i])
  {
    if pieces == [] then [] else [Param(pieces[0])] + Each(pieces[1..])
  }

  predicate IsFinal(c: char) {
    '@' <= c <= '~'
  }

  function FirstFinal(s: string): (r: Option<nat>)
    ensures r.Some? ==> r.value < |s| && IsFinal(s[r.value]) && forall i | 0 <= i < r.value :: !IsFinal(s[i])
    ensures r.None? ==> forall i | 0 <= i < |s| :: !IsFinal(s[i])
  {
    if s == "" then None
    else if IsFinal(s[0]) then Some(0)
    else
      assert forall i | 1 <= i < |s| :: s[i] == s[1..][i - 1];
      match FirstFinal(s[1..]) case Some(i) => Some(i + 1) case None => None
  }

  /** The body of an SGR sequence, if what follows an escape is one. */
  function BodyOf(piece: string): Option<string> {
    if piece == "" || piece[0] != '[' then None
    else
      match FirstFinal(piece[1..])
      case Some(end) => if piece[1..][end] == 'm' then Some(piece[1..][..end]) else None
      case None => None
  }

  function AfterPieces(pen: Pen, pieces: seq<string>): Pen {
    if pieces == [] then pen
    else
      var before := AfterPieces(pen, pieces[..|pieces| - 1]);
      match BodyOf(pieces[|pieces| - 1])
      case Some(body) => Applied(before, Params(body))
      case None => before
  }

  /** The pen a run of sequences leaves behind. */
  function PenAfter(seqs: string): Pen {
    AfterPieces(PLAIN, Split(seqs, ESC))
  }

  method Read(seqs: string) returns (pen: Pen)
    ensures pen == PenAfter(seqs)
  {
    pen := PLAIN;
    var pieces := Split(seqs, ESC);
    for i := 0 to |pieces|
      invariant pen == AfterPieces(PLAIN, pieces[..i])
    {
      assert pieces[..i + 1][..i] == pieces[..i];
      var body := BodyOf(pieces[i]);
      if body.Some? {
        pen := Apply(pen, body.value);
      }
    }
    assert pieces[..|pieces|] == pieces;
  }

  lemma AppliedAt(pen: Pen, params: seq<nat>, i: nat)
    requires i < |params|
    ensures Applied(pen, params[i..]) ==
            if params[i] == 38 || params[i] == 48 then
              var (colour, took) := ColourOf(params[i + 1..]);
              Applied(if params[i] == 38 then pen.(fg := colour) else pen.(bg := colour), params[i + 1 + took..])
            else Applied(Set(pen, params[i]), params[i + 1..])
  {
    assert params[i..][1..] == params[i + 1..];
    var (_, took) := ColourOf(params[i + 1..]);
    assert params[i..][1 + took..] == params[i + 1 + took..];
  }

  method Apply(was: Pen, body: string) returns (pen: Pen)
    ensures pen == Applied(was, Params(body))
  {
    hide Applied, Set, Params, ColourOf;
    pen := was;
    var params := Params(body);
    var i := 0;
    assert params[0..] == params;
    while i < |params|
      invariant i <= |params|
      invariant Applied(was, params) == Applied(pen, params[i..])
    {
      var param := params[i];
      AppliedAt(pen, params, i);
      i := i + 1;
      if param == 38 || param == 48 {
        var (colour, took) := ColourOf(params[i..]);
        pen := if param == 38 then pen.(fg := colour) else pen.(bg := colour);
        i := i + took;
      } else {
        pen := Set(pen, param);
      }
    }
    NothingApplied(pen);
    assert params[i..] == [];
  }

  lemma NothingApplied(pen: Pen)
    ensures Applied(pen, []) == pen
  {
  }

  // ----- Painting a selected cell -----

  function Attributes(pen: Pen): seq<(nat, bool)> {
    [(1, pen.bold), (2, pen.faint), (3, pen.italic), (4, pen.underline), (5, pen.blink), (9, pen.strike)]
  }

  function ColourParams(colour: Colour): string {
    match colour
    case Indexed(at) => ";38;5;" + Decimal(at)
    case Direct(r, g, b) => ";38;2;" + Decimal(r) + ";" + Decimal(g) + ";" + Decimal(b)
  }

  /** The codes of the attributes that are on, each after a semicolon. */
  function Codes(attributes: seq<(nat, bool)>): string {
    if attributes == [] then ""
    else
      var (code, on) := attributes[|attributes| - 1];
      Codes(attributes[..|attributes| - 1]) + if on then ";" + Decimal(code) else ""
  }

  function Glyph(pen: Pen): Option<Colour> {
    if pen.inverse then pen.bg else pen.fg
  }

  /** The glyph's own colour if it can be read on the band, and the fallback if it cannot. */
  function Painted(readable: Colour -> bool, pen: Pen): Colour {
    if Glyph(pen).Some? && readable(Glyph(pen).value) then Glyph(pen).value else Indexed(FALLBACK)
  }

  function SelectedAs(readable: Colour -> bool, pen: Pen): string {
    [ESC] + "[0" + Codes(Attributes(pen)) + ";48;5;" + Decimal(BAND) + ColourParams(Painted(readable, pen)) + "m"
  }

  lemma FallbackParams()
    ensures ColourParams(Indexed(FALLBACK)) == ";38;5;" + Decimal(FALLBACK)
  {
  }

  method Selected(readable: Colour -> bool, seqs: string) returns (out: string)
    ensures out == SelectedAs(readable, PenAfter(seqs))
  {
    hide PenAfter, Decimal, Attributes, ColourParams;
    var pen := Read(seqs);
    out := [ESC] + "[0";
    var attributes := Attributes(pen);
    for i := 0 to |attributes|
      invariant out == [ESC] + "[0" + Codes(attributes[..i])
    {
      assert attributes[..i + 1][..i] == attributes[..i];
      var (code, on) := attributes[i];
      if on {
        out := out + (";" + Decimal(code));
      }
    }
    assert attributes[..|attributes|] == attributes;
    out := out + (";48;5;" + Decimal(BAND));
    var glyph := if pen.inverse then pen.bg else pen.fg;
    if glyph.Some? && readable(glyph.value) {
      out := out + ColourParams(glyph.value);
    } else {
      out := out + (";38;5;" + Decimal(FALLBACK));
      FallbackParams();
    }
    out := out + "m";
    assert out == SelectedAs(readable, pen);
  }

  // ----- Reading back what was painted -----

  /** What a band does to a pen: it takes the ground, draws the glyph where it can be read, and swaps nothing. */
  function Banded(readable: Colour -> bool, pen: Pen): Pen {
    pen.(fg := Some(Painted(readable, pen)), bg := Some(Indexed(BAND)), inverse := false)
  }

  /** Some numbers each after a semicolon. */
  function Spelled(numbers: seq<nat>): string {
    if numbers == [] then "" else ";" + Decimal(numbers[0]) + Spelled(numbers[1..])
  }

  lemma {:induction false} SpelledOfConcat(a: seq<nat>, b: seq<nat>)
    ensures Spelled(a + b) == Spelled(a) + Spelled(b)
  {
    if a == [] {
      assert a + b == b;
    } else {
      assert (a + b)[1..] == a[1..] + b;
      SpelledOfConcat(a[1..], b);
    }
  }

  function If(on: bool, code: nat): seq<nat> {
    if on then [code] else []
  }

  function On(attributes: seq<(nat, bool)>): seq<nat> {
    if attributes == [] then []
    else On(attributes[..|attributes| - 1]) + If(attributes[|attributes| - 1].1, attributes[|attributes| - 1].0)
  }

  lemma {:induction false} CodesAreSpelled(attributes: seq<(nat, bool)>)
    ensures Codes(attributes) == Spelled(On(attributes))
    decreases |attributes|
  {
    if attributes != [] {
      var (code, on) := attributes[|attributes| - 1];
      CodesAreSpelled(attributes[..|attributes| - 1]);
      SpelledOfConcat(On(attributes[..|attributes| - 1]), If(on, code));
      assert Spelled([code]) == ";" + Decimal(code) by { assert [code][1..] == []; }
    }
  }

  function ColourNumbers(colour: Colour): seq<nat> {
    match colour
    case Indexed(at) => [38, 5, at]
    case Direct(r, g, b) => [38, 2, r, g, b]
  }

  lemma SmallDecimals()
    ensures Decimal(0) == "0" && Decimal(2) == "2" && Decimal(5) == "5" && Decimal(38) == "38" && Decimal(48) == "48"
  {
    assert Decimal(3) == "3" && Decimal(8) == "8" && Decimal(4) == "4";
  }

  lemma SpelledThree(a: nat, b: nat, rest: seq<nat>)
    ensures Spelled([a, b] + rest) == ";" + Decimal(a) + ";" + Decimal(b) + Spelled(rest)
  {
    assert ([a, b] + rest)[1..] == [b] + rest && ([b] + rest)[1..] == rest;
  }

  lemma SpelledOne(n: nat)
    ensures Spelled([n]) == ";" + Decimal(n)
  {
    hide Decimal;
    assert [n][1..] == [];
  }

  lemma IndexedIsSpelled(at: nat)
    ensures Spelled([38, 5, at]) == ";38;5;" + Decimal(at)
  {
    SmallDecimals();
    hide Decimal, Spelled;
    SpelledThree(38, 5, [at]);
    SpelledOne(at);
    assert [38, 5, at] == [38, 5] + [at];
  }

  lemma DirectIsSpelled(r: nat, g: nat, b: nat)
    ensures Spelled([38, 2, r, g, b]) == ";38;2;" + Decimal(r) + ";" + Decimal(g) + ";" + Decimal(b)
  {
    SmallDecimals();
    hide Decimal, Spelled;
    SpelledThree(38, 2, [r, g, b]);
    SpelledThree(r, g, [b]);
    SpelledOne(b);
    assert [38, 2, r, g, b] == [38, 2] + [r, g, b] && [r, g, b] == [r, g] + [b];
  }

  lemma ColourIsSpelled(colour: Colour)
    ensures ColourParams(colour) == Spelled(ColourNumbers(colour))
  {
    hide Decimal, Spelled;
    match colour {
      case Indexed(at) => IndexedIsSpelled(at);
      case Direct(r, g, b) => DirectIsSpelled(r, g, b);
    }
  }

  /** All that is written between the escape and its end: a reset, the attributes, the band and the glyph. */
  function Numbers(readable: Colour -> bool, pen: Pen): seq<nat> {
    On(Attributes(pen)) + [48, 5, BAND] + ColourNumbers(Painted(readable, pen))
  }

  lemma BandIsSpelled()
    ensures Spelled([48, 5, BAND]) == ";48;5;" + Decimal(BAND)
  {
    SmallDecimals();
    hide Decimal, Spelled;
    SpelledThree(48, 5, [BAND]);
    SpelledOne(BAND);
    assert [48, 5] + [BAND] == [48, 5, BAND];
  }

  lemma SelectedIsSpelled(readable: Colour -> bool, pen: Pen)
    ensures SelectedAs(readable, pen) == [ESC] + ("[" + ("0" + Spelled(Numbers(readable, pen)) + "m"))
  {
    hide Decimal, Codes, Painted, Spelled, On, Attributes, ColourParams, ColourNumbers;
    var on, glyph := On(Attributes(pen)), ColourNumbers(Painted(readable, pen));
    CodesAreSpelled(Attributes(pen));
    ColourIsSpelled(Painted(readable, pen));
    BandIsSpelled();
    SpelledOfConcat(on + [48, 5, BAND], glyph);
    SpelledOfConcat(on, [48, 5, BAND]);
    Bracketed(Codes(Attributes(pen)), Decimal(BAND), ColourParams(Painted(readable, pen)));
  }

  lemma Bracketed(codes: string, band: string, glyph: string)
    ensures [ESC] + "[0" + codes + ";48;5;" + band + glyph + "m"
         == [ESC] + ("[" + ("0" + (codes + (";48;5;" + band) + glyph) + "m"))
  {
    assert "[0" == "[" + "0";
  }

  /** Digits and semicolons: nothing that ends a sequence or starts one. */
  predicate IsInside(s: string) {
    forall i | 0 <= i < |s| :: IsDigit(s[i]) || s[i] == ';'
  }

  lemma {:induction false} SpelledIsInside(numbers: seq<nat>)
    ensures IsInside(Spelled(numbers))
  {
    if numbers != [] {
      SpelledIsInside(numbers[1..]);
      var digits := Decimal(numbers[0]);
      forall i | 0 <= i < |digits| ensures IsDigit(digits[i]) { assert digits[i] in digits; }
    }
  }

  /** What is spelled is split and read back as it was. */
  lemma {:induction false} SpelledReads(first: string, numbers: seq<nat>)
    requires ';' !in first && forall i | 0 <= i < |numbers| :: numbers[i] < 0x1_0000
    ensures Each(Split(first + Spelled(numbers), ';')) == [Param(first)] + numbers
    decreases |numbers|
  {
    if numbers == [] {
      assert first + Spelled(numbers) == first;
      SplitWithoutSeparator(first, ';');
      assert [first][1..] == [] && Each([first]) == [Param(first)] + Each([first][1..]);
    } else {
      var digits, rest := Decimal(numbers[0]), Spelled(numbers[1..]);
      assert first + Spelled(numbers) == first + [';'] + (digits + rest);
      SplitAtSeparator(first, ';', digits + rest);
      var pieces := Split(digits + rest, ';');
      assert ([first] + pieces)[1..] == pieces;
      SpelledReads(digits, numbers[1..]);
      ParseOfDecimal(numbers[0]);
      assert numbers == [numbers[0]] + numbers[1..];
    }
  }

  lemma {:induction false} FirstFinalAfter(inside: string, c: char, rest: string)
    requires IsInside(inside) && IsFinal(c)
    ensures FirstFinal(inside + [c] + rest) == Some(|inside|)
  {
    var s := inside + [c] + rest;
    if inside != "" {
      assert s[1..] == inside[1..] + [c] + rest;
      FirstFinalAfter(inside[1..], c, rest);
    }
  }

  lemma OneSequenceReads(inside: string)
    requires IsInside(inside)
    ensures PenAfter([ESC] + ("[" + (inside + "m"))) == Applied(PLAIN, Params(inside))
  {
    var piece := "[" + (inside + "m");
    assert ESC !in piece;
    assert "" + [ESC] + piece == [ESC] + piece;
    SplitAtSeparator("", ESC, piece);
    SplitWithoutSeparator(piece, ESC);
    FirstFinalAfter(inside, 'm', "");
    assert piece[1..] == inside + ['m'] + "";
    assert piece[1..][..|inside|] == inside;
    assert BodyOf(piece) == Some(inside);
    var pieces := Split([ESC] + piece, ESC);
    assert pieces == [""] + [piece] && pieces[..1] == [""] && pieces[1] == piece;
    assert AfterPieces(PLAIN, [""]) == PLAIN by { assert [""][..0] == [] && BodyOf("") == None; }
  }

  lemma OneApplied(pen: Pen, param: nat, on: bool, rest: seq<nat>)
    requires param != 38 && param != 48
    ensures Applied(pen, If(on, param) + rest) == Applied(if on then Set(pen, param) else pen, rest)
  {
    if on {
      assert If(on, param) + rest == [param] + rest && ([param] + rest)[1..] == rest;
    } else {
      assert If(on, param) + rest == rest;
    }
  }

  lemma BandOf(rest: seq<nat>)
    ensures ColourOf([5, BAND] + rest) == (Some(Indexed(BAND)), 2)
  {
  }

  lemma GlyphOf(glyph: Colour)
    ensures var numbers := ColourNumbers(glyph);
            |numbers| > 0 && numbers[0] == 38 && ColourOf(numbers[1..]) == (Some(glyph), |numbers| - 1)
  {
  }

  lemma GlyphApplied(pen: Pen, glyph: Colour)
    ensures Applied(pen, ColourNumbers(glyph)) == pen.(fg := Some(glyph))
  {
    hide Applied, ColourOf, ColourNumbers, Set;
    var numbers := ColourNumbers(glyph);
    GlyphOf(glyph);
    AppliedAt(pen, numbers, 0);
    assert numbers[0..] == numbers && numbers[|numbers|..] == [];
    NothingApplied(pen.(fg := Some(glyph)));
  }

  lemma ColourApplied(pen: Pen, glyph: Colour)
    ensures Applied(pen, [48, 5, BAND] + ColourNumbers(glyph)) == pen.(bg := Some(Indexed(BAND)), fg := Some(glyph))
  {
    hide Applied, ColourOf, ColourNumbers, Set;
    var numbers := ColourNumbers(glyph);
    var all := [48, 5, BAND] + numbers;
    BandOf(numbers);
    AppliedAt(pen, all, 0);
    assert all[1..] == [5, BAND] + numbers && all[3..] == numbers && all[0..] == all;
    GlyphApplied(pen.(bg := Some(Indexed(BAND))), glyph);
  }

  lemma OnOfSix(pen: Pen)
    ensures On(Attributes(pen))
         == If(pen.bold, 1) + If(pen.faint, 2) + If(pen.italic, 3)
          + If(pen.underline, 4) + If(pen.blink, 5) + If(pen.strike, 9)
  {
    var six := Attributes(pen);
    assert six[..5][..4] == six[..4] && six[..4][..3] == six[..3] && six[..3][..2] == six[..2] && six[..2][..1] == six[..1];
    assert six[..1][..0] == six[..0];
    assert On(six[..1]) == If(pen.bold, 1);
    assert On(six[..2]) == On(six[..1]) + If(pen.faint, 2);
    assert On(six[..3]) == On(six[..2]) + If(pen.italic, 3);
    assert On(six[..4]) == On(six[..3]) + If(pen.underline, 4);
    assert On(six[..5]) == On(six[..4]) + If(pen.blink, 5);
  }

  lemma Regrouped(a: seq<nat>, b: seq<nat>, c: seq<nat>, d: seq<nat>, e: seq<nat>, f: seq<nat>, rest: seq<nat>)
    ensures a + b + c + d + e + f + rest == a + (b + (c + (d + (e + (f + rest)))))
  {
  }

  /** What the attributes' codes do to a pen with none of them on. */
  lemma AttributesApplied(pen: Pen, rest: seq<nat>)
    ensures Applied(PLAIN, On(Attributes(pen)) + rest) == Applied(pen.(fg := None, bg := None, inverse := false), rest)
  {
    hide Applied, Attributes, If, On;
    OnOfSix(pen);
    Regrouped(If(pen.bold, 1), If(pen.faint, 2), If(pen.italic, 3),
              If(pen.underline, 4), If(pen.blink, 5), If(pen.strike, 9), rest);
    var strike := If(pen.strike, 9) + rest;
    var blink := If(pen.blink, 5) + strike;
    var underline := If(pen.underline, 4) + blink;
    var italic := If(pen.italic, 3) + underline;
    var faint := If(pen.faint, 2) + italic;
    var p1 := PLAIN.(bold := pen.bold);
    var p2 := p1.(faint := pen.faint);
    var p3 := p2.(italic := pen.italic);
    var p4 := p3.(underline := pen.underline);
    var p5 := p4.(blink := pen.blink);
    OneApplied(PLAIN, 1, pen.bold, faint);
    OneApplied(p1, 2, pen.faint, italic);
    OneApplied(p2, 3, pen.italic, underline);
    OneApplied(p3, 4, pen.underline, blink);
    OneApplied(p4, 5, pen.blink, strike);
    OneApplied(p5, 9, pen.strike, rest);
  }

  lemma {:induction false} OnIsSmall(attributes: seq<(nat, bool)>)
    requires forall i | 0 <= i < |attributes| :: attributes[i].0 < 10
    ensures forall i | 0 <= i < |On(attributes)| :: On(attributes)[i] < 10
    decreases |attributes|
  {
    if attributes != [] { OnIsSmall(attributes[..|attributes| - 1]); }
  }

  lemma NumbersAreSmall(readable: Colour -> bool, pen: Pen)
    ensures forall i | 0 <= i < |Numbers(readable, pen)| :: Numbers(readable, pen)[i] < 0x1_0000
  {
    hide On, Painted;
    OnIsSmall(Attributes(pen));
  }

  /** What is painted reads back as the pen it was painted over, banded: nothing else about the text is lost. */
  lemma SelectedReadsBack(readable: Colour -> bool, seqs: string)
    ensures PenAfter(SelectedAs(readable, PenAfter(seqs))) == Banded(readable, PenAfter(seqs))
  {
    hide PenAfter, SelectedAs, Painted, On, Attributes, Applied, Split, ColourNumbers;
    var pen := PenAfter(seqs);
    var numbers := Numbers(readable, pen);
    SelectedIsSpelled(readable, pen);
    SpelledIsInside(numbers);
    OneSequenceReads("0" + Spelled(numbers));
    NumbersAreSmall(readable, pen);
    SpelledReads("0", numbers);
    assert Param("0") == 0 by { SmallDecimals(); ParseOfDecimal(0); }
    OneApplied(PLAIN, 0, true, numbers);
    var rest := [48, 5, BAND] + ColourNumbers(Painted(readable, pen));
    assert numbers == On(Attributes(pen)) + rest;
    AttributesApplied(pen, rest);
    ColourApplied(pen.(fg := None, bg := None, inverse := false), Painted(readable, pen));
  }

  /** Selecting what is selected changes nothing, whether or not the fallback itself can be read. */
  lemma SelectingTwiceIsOnce(readable: Colour -> bool, seqs: string)
    ensures var once := SelectedAs(readable, PenAfter(seqs));
            SelectedAs(readable, PenAfter(once)) == once
  {
    hide PenAfter, Decimal, ColourParams;
    var pen := PenAfter(seqs);
    SelectedReadsBack(readable, seqs);
    assert Attributes(Banded(readable, pen)) == Attributes(pen);
    assert Painted(readable, Banded(readable, pen)) == Painted(readable, pen);
  }
}
