/** What each sequence a program prints does to its keyboard, over src/keyboard.rs and src/node/events.rs:167-290. */
module KeyboardLaws {
  import opened Bytes
  import opened Keyboards
  import opened Text
  import opened Wrappers
  import Utf8

  /** The reader after a sequence printed between sequences. */
  function Printed(k: Keys, params: string, final: char): Reader {
    FedAll(Reader(Ground, [], k), Utf8.Encode("\U{1B}[" + params + [final]))
  }

  function Resting(k: Keys): Reader {
    Reader(Ground, [], k)
  }

  /** A lead and what follows it: the fields a note is made of. */
  lemma PrintedNote(k: Keys, lead: char, rest: string)
    requires '\U{20}' <= lead <= '\U{3F}' && IsParams(rest) && |rest| < MAX_CSI
    ensures var params := Utf8.Encode([lead] + rest);
            && params != [] && params[0] == lead as Byte && Utf8.FromUtf8(params[1..]) == Ok(rest)
            && Printed(k, [lead] + rest, 'u') == Resting(Noted(k, params))
            && Printed(k, [lead] + rest, 'm') == Resting(Modified(k, params))
  {
    hide Noted, Modified, FedAll, Utf8.FromUtf8, Utf8.Encode;
    FieldsAreRead(lead, rest);
    LeadIsParam(lead, rest);
    SequenceIsRead(k, [lead] + rest, 'u');
    SequenceIsRead(k, [lead] + rest, 'm');
  }

  lemma LeadIsParam(lead: char, rest: string)
    requires '\U{20}' <= lead <= '\U{3F}' && IsParams(rest)
    ensures IsParams([lead] + rest)
  {
  }

  // ----- Popping -----

  /** `CSI < u` drops the newest flags, and does nothing to a stack of none. */
  lemma PopDropsOne(k: Keys)
    ensures Printed(k, "<", 'u') == Resting(k.(stack := if k.stack == [] then [] else k.stack[..|k.stack| - 1]))
  {
    hide Printed, Utf8.FromUtf8, Utf8.Encode;
    PrintedNote(k, '<', "");
    assert ['<'] + "" == "<";
    SplitWithoutSeparator("", ';');
  }

  /** `CSI < n u` drops that many, or all there are. */
  lemma PopDropsMany(k: Keys, n: U16)
    ensures Printed(k, "<" + Decimal(n), 'u')
         == Resting(k.(stack := if n <= |k.stack| then k.stack[..|k.stack| - n] else []))
  {
    hide Printed, Decimal, Utf8.FromUtf8, Utf8.Encode;
    NumberFits(n);
    PrintedNote(k, '<', Decimal(n));
    assert ['<'] + Decimal(n) == "<" + Decimal(n);
    SplitWithoutSeparator(Decimal(n), ';');
    ParseOfDecimal(n);
  }

  lemma NumberFits(n: U16)
    ensures IsParams(Decimal(n)) && |Decimal(n)| <= 5
    ensures ';' !in Decimal(n)
  {
    DecimalIsShort(n);
    ParseOfDecimal(n);
  }

  // ----- Pushing -----

  /** `CSI > u` pushes no flags, and `CSI > n u` those: on top, the oldest of sixteen lost. */
  lemma PushAddsOnTop(k: Keys, n: U16)
    requires |k.stack| <= 16
    ensures var kept := if |k.stack| == 16 then k.stack[1..] else k.stack;
            && Printed(k, ">", 'u') == Resting(k.(stack := kept + [0]))
            && Printed(k, ">" + Decimal(n), 'u') == Resting(k.(stack := kept + [n]))
  {
    hide Printed, Decimal, Utf8.FromUtf8, Utf8.Encode;
    PrintedNote(k, '>', "");
    assert ['>'] + "" == ">";
    SplitWithoutSeparator("", ';');
    NumberFits(n);
    PrintedNote(k, '>', Decimal(n));
    assert ['>'] + Decimal(n) == ">" + Decimal(n);
    SplitWithoutSeparator(Decimal(n), ';');
    ParseOfDecimal(n);
  }

  // ----- Changing what is in force -----

  /** The flags in force, the newest pushed or the base under them, are these, and nothing else is another. */
  predicate InForce(was: Keys, now: Keys, flags: bv16) {
    && now.otherKeys == was.otherKeys && |now.stack| == |was.stack|
    && (was.stack == [] ==> Bits(now.base) == flags)
    && (was.stack != [] ==>
          && now.base == was.base
          && Bits(now.stack[|was.stack| - 1]) == flags && now.stack[..|was.stack| - 1] == was.stack[..|was.stack| - 1])
  }

  function FlagsOf(k: Keys): bv16 {
    if k.stack == [] then Bits(k.base) else Bits(k.stack[|k.stack| - 1])
  }

  lemma PrintedSet(k: Keys, f: U16, m: U16)
    ensures Printed(k, "=" + Decimal(f), 'u') == Resting(Changed(k, f, 1))
    ensures Printed(k, "=" + Decimal(f) + ";" + Decimal(m), 'u') == Resting(Changed(k, f, m))
  {
    hide Printed, Decimal, Changed, Utf8.FromUtf8, Utf8.Encode;
    NumberFits(f);
    NumberFits(m);
    PrintedNote(k, '=', Decimal(f));
    assert ['='] + Decimal(f) == "=" + Decimal(f);
    SplitWithoutSeparator(Decimal(f), ';');
    ParseOfDecimal(f);
    var both := Decimal(f) + ";" + Decimal(m);
    PrintedNote(k, '=', both);
    assert ['='] + both == "=" + Decimal(f) + ";" + Decimal(m);
    TwoFields(f, m);
  }

  lemma ChangedIsInForce(k: Keys, f: U16, m: U16)
    ensures InForce(k, Changed(k, f, m),
                    if m == 2 then FlagsOf(k) | Bits(f) else if m == 3 then FlagsOf(k) & !Bits(f) else Bits(f))
  {
    hide Or, AndNot, Bits, InForce;
    BitsOfOr(Top(k), f);
    BitsOfAndNot(Top(k), f);
    TopsBits(k);
    PutInForce(k, if m == 2 then Or(Top(k), f) else if m == 3 then AndNot(Top(k), f) else f);
  }

  lemma TopsBits(k: Keys)
    ensures Bits(Top(k)) == FlagsOf(k)
  {
  }

  lemma PutInForce(k: Keys, flags: U16)
    ensures InForce(k, if k.stack == [] then k.(base := flags) else k.(stack := k.stack[|k.stack| - 1 := flags]), Bits(flags))
  {
    hide Bits;
  }

  /**
    `CSI = f ; m u` changes the flags in force: 2 adds every bit of `f`, 3 takes every
    one away, and 1, no mode or any other puts `f` in their place.
   */
  lemma SetChangesTheFlags(k: Keys, f: U16, m: U16)
    ensures var now := Printed(k, "=" + Decimal(f) + ";" + Decimal(m), 'u');
            && now == Resting(now.keys)
            && (m == 2 ==> InForce(k, now.keys, FlagsOf(k) | Bits(f)))
            && (m == 3 ==> InForce(k, now.keys, FlagsOf(k) & !Bits(f)))
            && (m != 2 && m != 3 ==> InForce(k, now.keys, Bits(f)))
    ensures var now := Printed(k, "=" + Decimal(f), 'u'); now == Resting(now.keys) && InForce(k, now.keys, Bits(f))
  {
    hide Printed, Decimal, Changed, InForce, FlagsOf, Bits;
    PrintedSet(k, f, m);
    ChangedIsInForce(k, f, m);
    ChangedIsInForce(k, f, 1);
  }

  /** A mode that is no number is as none written, and what follows the mode is nothing. */
  lemma UnreadableModes(k: Keys, f: U16, m: U16, rest: string)
    requires IsParams(rest) && |rest| < 48
    ensures ';' !in rest && ParseU16(rest).None? ==>
              Printed(k, "=" + Decimal(f) + ";" + rest, 'u') == Printed(k, "=" + Decimal(f), 'u')
    ensures Printed(k, "=" + Decimal(f) + ";" + Decimal(m) + ";" + rest, 'u')
         == Printed(k, "=" + Decimal(f) + ";" + Decimal(m), 'u')
  {
    hide Printed, Decimal, Changed, Split, ParseU16, Utf8.FromUtf8, Utf8.Encode;
    PrintedSet(k, f, m);
    NumberFits(f);
    NumberFits(m);
    ParseOfDecimal(f);
    ParseOfDecimal(m);
    var both := Decimal(f) + ";" + rest;
    PrintedNote(k, '=', both);
    assert ['='] + both == "=" + Decimal(f) + ";" + rest;
    SplitAtSeparator(Decimal(f), ';', rest);
    assert Decimal(f) + [';'] + rest == both;
    if ';' !in rest { SplitWithoutSeparator(rest, ';'); }
    var tail := Decimal(m) + ";" + rest;
    var all := Decimal(f) + ";" + tail;
    PrintedNote(k, '=', all);
    assert ['='] + all == "=" + Decimal(f) + ";" + Decimal(m) + ";" + rest;
    SplitAtSeparator(Decimal(f), ';', tail);
    assert Decimal(f) + [';'] + tail == all;
    SplitAtSeparator(Decimal(m), ';', rest);
    assert Decimal(m) + [';'] + rest == tail;
  }

  // ----- What is nothing -----

  /** With no number `=` changes nothing; `>` pushes none and `<` drops one, as with nothing written. */
  lemma UnreadableNumbers(k: Keys, rest: string)
    requires IsParams(rest) && |rest| < MAX_CSI && ';' !in rest && ParseU16(rest).None?
    ensures Printed(k, "=" + rest, 'u') == Resting(k)
    ensures Printed(k, ">" + rest, 'u') == Printed(k, ">", 'u')
    ensures Printed(k, "<" + rest, 'u') == Printed(k, "<", 'u')
  {
    hide Printed, Pushed, Popped, Utf8.FromUtf8, Utf8.Encode;
    SplitWithoutSeparator(rest, ';');
    SplitWithoutSeparator("", ';');
    PrintedNote(k, '=', rest);
    PrintedNote(k, '>', rest);
    PrintedNote(k, '<', rest);
    PrintedNote(k, '>', "");
    PrintedNote(k, '<', "");
    assert ['='] + rest == "=" + rest && ['>'] + rest == ">" + rest && ['<'] + rest == "<" + rest;
    assert ['>'] + "" == ">" && ['<'] + "" == "<";
  }

  /** Any other lead is a question or nobody's, and so is none. */
  lemma OtherLeads(k: Keys, lead: char, rest: string)
    requires '\U{20}' <= lead <= '\U{3F}' && IsParams(rest) && |rest| < MAX_CSI
    requires lead != '<' && lead != '=' && lead != '>'
    ensures Printed(k, [lead] + rest, 'u') == Resting(k) && Printed(k, [lead] + rest, 'm') == Resting(k)
    ensures Printed(k, "", 'u') == Resting(k) && Printed(k, "", 'm') == Resting(k)
  {
    PrintedNote(k, lead, rest);
    hide Fed, Utf8.EncodeChar;
    SequenceIsRead(k, "", 'u');
    SequenceIsRead(k, "", 'm');
    assert Utf8.Encode("") == [];
  }

  /** A sequence that ends in anything else is about something else. */
  lemma OtherFinals(k: Keys, params: string, final: char)
    requires IsParams(params) && |params| <= MAX_CSI && '@' <= final <= '~' && final != 'u' && final != 'm'
    ensures Printed(k, params, final) == Resting(k)
  {
    hide Fed, Utf8.EncodeChar;
    SequenceIsRead(k, params, final);
  }

  // ----- xterm's own -----

  /** `CSI > 4 ; n m` sets xterm's level, `CSI > 4 m` takes it away, and no other number is about it. */
  lemma LevelIsSet(k: Keys, n: U16, other: U16)
    requires other != 4
    ensures Printed(k, ">4;" + Decimal(n), 'm') == Resting(k.(otherKeys := Some(n)))
    ensures Printed(k, ">4", 'm') == Resting(k.(otherKeys := None))
    ensures Printed(k, ">" + Decimal(other), 'm') == Resting(k)
    ensures Printed(k, ">" + Decimal(other) + ";" + Decimal(n), 'm') == Resting(k)
  {
    OneIsOne();
    hide Printed, Decimal, Utf8.FromUtf8, Utf8.Encode;
    NumberFits(n);
    NumberFits(4);
    NumberFits(other);
    PrintedNote(k, '>', Decimal(4));
    assert ['>'] + Decimal(4) == ">4";
    SplitWithoutSeparator(Decimal(4), ';');
    ParseOfDecimal(4);
    PrintedNote(k, '>', Decimal(other));
    assert ['>'] + Decimal(other) == ">" + Decimal(other);
    SplitWithoutSeparator(Decimal(other), ';');
    ParseOfDecimal(other);
    PrintedLevel(k, 4, n);
    PrintedLevel(k, other, n);
    assert ">" + Decimal(4) + ";" + Decimal(n) == ">4;" + Decimal(n);
  }

  lemma PrintedLevel(k: Keys, resource: U16, n: U16)
    ensures Printed(k, ">" + Decimal(resource) + ";" + Decimal(n), 'm')
         == Resting(if resource == 4 then k.(otherKeys := Some(n)) else k)
  {
    hide Printed, Decimal, Utf8.FromUtf8, Utf8.Encode;
    NumberFits(resource);
    NumberFits(n);
    var both := Decimal(resource) + ";" + Decimal(n);
    PrintedNote(k, '>', both);
    assert ['>'] + both == ">" + Decimal(resource) + ";" + Decimal(n);
    TwoFields(resource, n);
  }

  // ----- Escapes and strings -----

  /** A full reset leaves a keyboard nothing was ever asked of. */
  lemma ResetForgetsAll(k: Keys)
    ensures FedAll(Resting(k), [0x1B, 'c' as Byte]) == Resting(Keys(0, [], None))
  {
    FedFirst(Resting(k), [0x1B, 'c' as Byte]);
    assert [0x1B, 'c' as Byte][1..] == ['c' as Byte];
    FedOne(Reader(Escape, [], k), 'c' as Byte);
  }

  /** A title or the like, up to a bell or an `ESC \`, holds nothing for the keyboard. */
  lemma TitlesAreSkipped(k: Keys, text: Bytes)
    requires 0x1B !in text && 0x07 !in text
    ensures FedAll(Resting(k), [0x1B, ']' as Byte] + text + [0x07]) == Resting(k)
    ensures FedAll(Resting(k), [0x1B, ']' as Byte] + text + [0x1B, '\\' as Byte]) == Resting(k)
  {
    var begun := [0x1B, ']' as Byte];
    StringIsRead(k, ']' as Byte, Osc, text);
    FedInTurn(Resting(k), begun + text, [0x07]);
    FedOne(Reader(Osc, [], k), 0x07);
    FedInTurn(Resting(k), begun + text, [0x1B, '\\' as Byte]);
    StringEnds(Reader(Osc, [], k));
  }

  lemma StringIsRead(k: Keys, kind: Byte, state: State, text: Bytes)
    requires Fed(Reader(Escape, [], k), kind) == Reader(state, [], k) && (state == Osc || state == Ignored)
    requires 0x1B !in text && (state == Osc ==> 0x07 !in text)
    ensures FedAll(Resting(k), [0x1B, kind] + text) == Reader(state, [], k)
  {
    FedInTurn(Resting(k), [0x1B, kind], text);
    FedFirst(Resting(k), [0x1B, kind]);
    assert [0x1B, kind][1..] == [kind];
    FedOne(Reader(Escape, [], k), kind);
    InsideAString(Reader(state, [], k), text);
  }

  lemma {:induction false} InsideAString(r: Reader, text: Bytes)
    requires r.state == Osc || r.state == Ignored
    requires 0x1B !in text && (r.state == Osc ==> 0x07 !in text)
    ensures FedAll(r, text) == r
    decreases |text|
  {
    if text != [] { InsideAString(r, text[..|text| - 1]); }
  }

  lemma StringEnds(r: Reader)
    requires r.state == Osc || r.state == Ignored
    ensures FedAll(r, [0x1B, '\\' as Byte]) == r.(state := Ground)
  {
    FedFirst(r, [0x1B, '\\' as Byte]);
    assert [0x1B, '\\' as Byte][1..] == ['\\' as Byte];
    FedOne(Fed(r, 0x1B), '\\' as Byte);
  }

  /** The other strings, which a bell does not end. */
  lemma StringsAreSkipped(k: Keys, kind: Byte, text: Bytes)
    requires kind == 'P' as Byte || kind == 'X' as Byte || kind == '^' as Byte || kind == '_' as Byte
    requires 0x1B !in text
    ensures FedAll(Resting(k), [0x1B, kind] + text + [0x1B, '\\' as Byte]) == Resting(k)
  {
    StringIsRead(k, kind, Ignored, text);
    FedInTurn(Resting(k), [0x1B, kind] + text, [0x1B, '\\' as Byte]);
    StringEnds(Reader(Ignored, [], k));
  }

  /** An escape inside a string that does not end it is part of it. */
  lemma EscapesInStrings(k: Keys, b: Byte)
    requires b != '\\' as Byte
    ensures FedAll(Reader(Osc, [], k), [0x1B, b]) == Reader(Osc, [], k)
    ensures b != 0x1B ==> FedAll(Reader(Ignored, [], k), [0x1B, b]) == Reader(Ignored, [], k)
    ensures b == 0x1B ==> FedAll(Reader(Ignored, [], k), [0x1B, b]) == Reader(IgnoredEscape, [], k)
  {
    assert [0x1B, b][1..] == [b];
    FedFirst(Reader(Osc, [], k), [0x1B, b]);
    FedOne(Reader(OscEscape, [], k), b);
    FedFirst(Reader(Ignored, [], k), [0x1B, b]);
    FedOne(Reader(IgnoredEscape, [], k), b);
  }

  /** Any other escape is one byte more and nothing; a second escape begins again. */
  lemma OtherEscapes(k: Keys, b: Byte)
    requires b !in {'[' as Byte, ']' as Byte, 'P' as Byte, 'X' as Byte, '^' as Byte, '_' as Byte, 'c' as Byte}
    ensures FedAll(Resting(k), [0x1B, b]) == if b == 0x1B then Reader(Escape, [], k) else Resting(k)
  {
    assert [0x1B, b][1..] == [b];
    FedFirst(Resting(k), [0x1B, b]);
    FedOne(Reader(Escape, [], k), b);
  }

  /** A bell, or any other control or high byte inside a sequence, is no part of it. */
  lemma ControlsInSequences(k: Keys, params: Bytes, b: Byte)
    requires b < 0x20 || b >= 0x7F
    ensures FedAll(Reader(Csi, params, k), [b]) == Reader(Csi, params, k)
  {
    FedOne(Reader(Csi, params, k), b);
  }

  /** Of a sequence too long to hold, what is past the sixty-fourth byte is dropped. */
  lemma {:induction false} LongSequencesAreCut(k: Keys, params: Bytes)
    requires forall i | 0 <= i < |params| :: 0x20 <= params[i] <= 0x3F
    ensures FedAll(Reader(Csi, [], k), params) == Reader(Csi, if |params| <= 64 then params else params[..64], k)
    decreases |params|
  {
    if params != [] {
      var n := |params| - 1;
      LongSequencesAreCut(k, params[..n]);
      assert params == params[..n] + [params[n]];
      if n >= 64 { assert params[..n][..64] == params[..64]; }
    }
  }
}
