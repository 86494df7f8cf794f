/**
  src/keyboard.rs and the part of src/node/events.rs that feeds it: what a program
  asked of the keyboard, kept so that a terminal attached later can be told again.
 */
module Keyboards {
  import opened Bytes
  import opened Text
  import opened Wrappers
  import Utf8

  type U16 = n: nat | n < 0x1_0000

  /** The fields of a keyboard, as a value; `otherKeys` is what xterm's modifyOtherKeys was set to. */
  datatype Keys = Keys(base: U16, stack: seq<U16>, otherKeys: Option<U16>)

  const UNTOUCHED := Keys(0, [], None)

  const KEYBOARD_STACK: nat := 16

  function Bits(a: U16): bv16 {
    a as bv16
  }

  function Or(a: U16, b: U16): U16 {
    (Bits(a) | Bits(b)) as nat
  }

  function AndNot(a: U16, b: U16): U16 {
    (Bits(a) & !Bits(b)) as nat
  }

  function Top(k: Keys): U16 {
    if k.stack == [] then k.base else k.stack[|k.stack| - 1]
  }

  /** Whether these flags ask for releases. */
  predicate Reports(flags: U16) {
    Bits(flags) & 2 != 0
  }

  predicate ReportsReleases(k: Keys) {
    Reports(Top(k))
  }

  function Pushed(k: Keys, flags: U16): Keys {
    var room := if |k.stack| == KEYBOARD_STACK then k.stack[1..] else k.stack;
    k.(stack := room + [flags])
  }

  function Popped(k: Keys, count: nat): Keys {
    k.(stack := k.stack[..if count < |k.stack| then |k.stack| - count else 0])
  }

  function Changed(k: Keys, flags: U16, mode: U16): Keys {
    var now := if mode == 2 then Or(Top(k), flags) else if mode == 3 then AndNot(Top(k), flags) else flags;
    if k.stack == [] then k.(base := now) else k.(stack := k.stack[|k.stack| - 1 := now])
  }

  function OrElse(n: Option<nat>, otherwise: U16): U16
    requires n.Some? ==> n.value < 0x1_0000
  {
    if n.Some? then n.value else otherwise
  }

  /** The sequences of the kitty keyboard protocol, by their parameters. */
  function Noted(k: Keys, params: Bytes): Keys {
    if params == [] then k
    else
      match Utf8.FromUtf8(params[1..])
      case Err(_) => k
      case Ok(text) =>
        var fields := Split(text, ';');
        var first := ParseU16(fields[0]);
        if params[0] == '>' as Byte then Pushed(k, OrElse(first, 0))
        else if params[0] == '<' as Byte then Popped(k, OrElse(first, 1))
        else if params[0] == '=' as Byte && first.Some? then
          Changed(k, first.value, if |fields| > 1 then OrElse(ParseU16(fields[1]), 1) else 1)
        else k
  }

  /**
    The sequences that put a keyboard as it is: the base, what was pushed on it from
    the bottom up, and xterm's own.
   */
  function Replayed(k: Keys): string {
    (if k.base != 0 then "\U{1B}[=" + Decimal(k.base) + ";1u" else "")
    + Pushes(k.stack)
    + (if k.otherKeys.Some? && k.otherKeys.value != 0 then "\U{1B}[>4;" + Decimal(k.otherKeys.value) + "m" else "")
  }

  function Pushes(stack: seq<U16>): string {
    if stack == [] then ""
    else Pushes(stack[..|stack| - 1]) + ("\U{1B}[>" + Decimal(stack[|stack| - 1]) + "u")
  }

  class Keyboard {
    var base: U16
    var stack: seq<U16>
    var otherKeys: Option<U16>

    function Value(): Keys
      reads this
    {
      Keys(base, stack, otherKeys)
    }

    constructor ()
      ensures Value() == UNTOUCHED
    {
      base, stack, otherKeys := 0, [], None;
    }

    method Push(flags: U16)
      modifies this
      ensures Value() == Pushed(old(Value()), flags)
      ensures old(|stack|) <= KEYBOARD_STACK ==> |stack| <= KEYBOARD_STACK
    {
      if |stack| == KEYBOARD_STACK {
        stack := stack[1..];
      }
      stack := stack + [flags];
    }

    method Pop(count: nat)
      modifies this
      ensures Value() == Popped(old(Value()), count)
      ensures stack <= old(stack) && |stack| == if count < old(|stack|) then old(|stack|) - count else 0
    {
      stack := stack[..if count < |stack| then |stack| - count else 0];
    }

    method Set(flags: U16, mode: U16)
      modifies this
      ensures Value() == Changed(old(Value()), flags, mode)
    {
      hide Or, AndNot;
      var now := Top(Value());
      now := if mode == 2 then Or(now, flags) else if mode == 3 then AndNot(now, flags) else flags;
      if stack == [] {
        base := now;
      } else {
        stack := stack[|stack| - 1 := now];
      }
    }

    method Note(params: Bytes)
      modifies this
      ensures Value() == Noted(old(Value()), params)
    {
      hide Pushed, Popped, Changed, Utf8.FromUtf8, Split, ParseU16;
      if params == [] {
        return;
      }
      var lead, text := params[0], Utf8.FromUtf8(params[1..]);
      if text.Err? {
        return;
      }
      var fields := Split(text.value, ';');
      var first := ParseU16(fields[0]);
      if lead == '>' as Byte {
        Push(OrElse(first, 0));
      } else if lead == '<' as Byte {
        Pop(OrElse(first, 1));
      } else if lead == '=' as Byte && first.Some? {
        Set(first.value, if |fields| > 1 then OrElse(ParseU16(fields[1]), 1) else 1);
      }
    }

    method SetModifyOtherKeys(level: Option<U16>)
      modifies this
      ensures Value() == old(Value()).(otherKeys := level)
    {
      otherKeys := level;
    }

    method Replay() returns (out: string)
      ensures out == Replayed(Value())
    {
      hide Decimal;
      out := "";
      if base != 0 {
        out := out + ("\U{1B}[=" + Decimal(base) + ";1u");
      }
      ghost var before := out;
      for i := 0 to |stack|
        invariant out == before + Pushes(stack[..i])
      {
        assert stack[..i + 1][..i] == stack[..i];
        out := out + ("\U{1B}[>" + Decimal(stack[i]) + "u");
      }
      assert stack[..|stack|] == stack;
      if otherKeys.Some? && otherKeys.value != 0 {
        out := out + ("\U{1B}[>4;" + Decimal(otherKeys.value) + "m");
      }
    }
  }

  // ----- A program's output, read for what it asks -----

  datatype State = Ground | Escape | Csi | Osc | OscEscape | Ignored | IgnoredEscape

  const MAX_CSI: nat := 64

  /** The reader of a program's output, as far as the keyboard is concerned. */
  datatype Reader = Reader(state: State, csi: Bytes, keys: Keys)

  const AT_START := Reader(Ground, [], UNTOUCHED)

  /** `CSI > 4 ; Pv m`, and nothing else that ends in an m. */
  function Modified(k: Keys, params: Bytes): Keys {
    if params == [] || params[0] != '>' as Byte then k
    else
      match Utf8.FromUtf8(params[1..])
      case Err(_) => k
      case Ok(text) =>
        var fields := Split(text, ';');
        if ParseU16(fields[0]) != Some(4) then k
        else k.(otherKeys := if |fields| > 1 then ParseU16(fields[1]) else None)
  }

  function Finished(k: Keys, params: Bytes, final: Byte): Keys {
    if final == 'u' as Byte then Noted(k, params)
    else if final == 'm' as Byte then Modified(k, params)
    else k
  }

  /** One byte of output. Bells, titles, modes and the cursor are left out; the states they pass through are not. */
  function Fed(r: Reader, b: Byte): Reader {
    match r.state
    case Ground => if b == 0x1B then r.(state := Escape) else r
    case Escape =>
      if b == '[' as Byte then Reader(Csi, [], r.keys)
      else if b == ']' as Byte then r.(state := Osc)
      else if b == 'P' as Byte || b == 'X' as Byte || b == '^' as Byte || b == '_' as Byte then r.(state := Ignored)
      else if b == 0x1B then r
      else if b == 'c' as Byte then Reader(Ground, r.csi, UNTOUCHED)
      else r.(state := Ground)
    case Csi =>
      if 0x20 <= b <= 0x3F then (if |r.csi| < MAX_CSI then r.(csi := r.csi + [b]) else r)
      else if 0x40 <= b <= 0x7E then Reader(Ground, [], Finished(r.keys, r.csi, b))
      else r
    case Osc => if b == 0x07 then r.(state := Ground) else if b == 0x1B then r.(state := OscEscape) else r
    case OscEscape => r.(state := if b == '\\' as Byte then Ground else Osc)
    case Ignored => if b == 0x1B then r.(state := IgnoredEscape) else r
    case IgnoredEscape => r.(state := if b == '\\' as Byte then Ground else if b == 0x1B then IgnoredEscape else Ignored)
  }

  function FedAll(r: Reader, bytes: Bytes): Reader {
    if bytes == [] then r else Fed(FedAll(r, bytes[..|bytes| - 1]), bytes[|bytes| - 1])
  }

  /** The reader itself. */
  class Output {
    var state: State
    var csi: Bytes
    var keyboard: Keyboard

    function Value(): Reader
      reads this, keyboard
    {
      Reader(state, csi, keyboard.Value())
    }

    constructor ()
      ensures Value() == AT_START && fresh(keyboard)
    {
      state, csi := Ground, [];
      keyboard := new Keyboard();
    }

    /** A chunk of output; a sequence it breaks off in is carried over to the next. */
    method Feed(chunk: Bytes)
      modifies this, keyboard
      ensures Value() == FedAll(old(Value()), chunk)
      ensures keyboard == old(keyboard) || fresh(keyboard)
    {
      hide Fed;
      for i := 0 to |chunk|
        invariant Value() == FedAll(old(Value()), chunk[..i])
        invariant keyboard == old(keyboard) || fresh(keyboard)
      {
        assert chunk[..i + 1][..i] == chunk[..i];
        FeedOne(chunk[i]);
      }
      assert chunk[..|chunk|] == chunk;
    }

    method FeedOne(b: Byte)
      modifies this, keyboard
      ensures Value() == Fed(old(Value()), b)
      ensures keyboard == old(keyboard) || fresh(keyboard)
    {
      hide Finished;
      match state {
        case Ground => if b == 0x1B { state := Escape; }
        case Escape =>
          if b == '[' as Byte {
            state, csi := Csi, [];
          } else if b == ']' as Byte {
            state := Osc;
          } else if b == 'P' as Byte || b == 'X' as Byte || b == '^' as Byte || b == '_' as Byte {
            state := Ignored;
          } else if b == 'c' as Byte {
            keyboard := new Keyboard();
            state := Ground;
          } else if b != 0x1B {
            state := Ground;
          }
        case Csi =>
          if 0x20 <= b <= 0x3F {
            if |csi| < MAX_CSI { csi := csi + [b]; }
          } else if 0x40 <= b <= 0x7E {
            state := Ground;
            FinishCsi(b);
          }
        case Osc => if b == 0x07 { state := Ground; } else if b == 0x1B { state := OscEscape; }
        case OscEscape => state := if b == '\\' as Byte then Ground else Osc;
        case Ignored => if b == 0x1B { state := IgnoredEscape; }
        case IgnoredEscape => if b == '\\' as Byte { state := Ground; } else if b != 0x1B { state := Ignored; }
      }
    }

    /** The sequence read so far, ended by this byte. */
    method FinishCsi(final: Byte)
      modifies this`csi, keyboard
      ensures Value() == Reader(state, [], Finished(old(keyboard.Value()), old(csi), final))
    {
      hide Noted, Utf8.FromUtf8, Split, ParseU16;
      var params := csi;
      csi := [];
      if final == 'u' as Byte {
        keyboard.Note(params);
        return;
      }
      if final == 'm' as Byte && params != [] && params[0] == '>' as Byte {
        var text := Utf8.FromUtf8(params[1..]);
        if text.Err? {
          return;
        }
        var fields := Split(text.value, ';');
        if ParseU16(fields[0]) != Some(4) {
          return;
        }
        keyboard.SetModifyOtherKeys(if |fields| > 1 then ParseU16(fields[1]) else None);
      }
    }
  }

  // ----- The stack stays shallow -----

  lemma NotingStaysShallow(k: Keys, params: Bytes)
    requires |k.stack| <= KEYBOARD_STACK
    ensures |Noted(k, params).stack| <= KEYBOARD_STACK
  {
  }

  /** Whatever a program prints, no more than sixteen sets of flags are held for it, the newest ones. */
  lemma {:induction false} StackStaysShallow(r: Reader, bytes: Bytes)
    requires |r.keys.stack| <= KEYBOARD_STACK
    ensures |FedAll(r, bytes).keys.stack| <= KEYBOARD_STACK
    decreases |bytes|
  {
    if bytes != [] {
      hide Noted;
      StackStaysShallow(r, bytes[..|bytes| - 1]);
      var before := FedAll(r, bytes[..|bytes| - 1]);
      NotingStaysShallow(before.keys, before.csi);
    }
  }

  /** A push and a pop leave the stack as it was, exactly when there was room for the push. */
  lemma PopUndoesPush(k: Keys, flags: U16)
    requires |k.stack| <= KEYBOARD_STACK
    ensures Popped(Pushed(k, flags), 1) == k <==> |k.stack| < KEYBOARD_STACK
  {
    var pushed := Pushed(k, flags).stack;
    var room := if |k.stack| == KEYBOARD_STACK then k.stack[1..] else k.stack;
    assert pushed[..|pushed| - 1] == room;
    assert Popped(Pushed(k, flags), 1).stack == room;
    assert |k.stack| == KEYBOARD_STACK ==> |room| != |k.stack|;
  }

  lemma BitsComeBack(b: bv16)
    ensures Bits(b as U16) == b
  {
  }

  lemma BitsOfOr(a: U16, b: U16)
    ensures Bits(Or(a, b)) == Bits(a) | Bits(b)
  {
    BitsComeBack(Bits(a) | Bits(b));
  }

  lemma BitsOfAndNot(a: U16, b: U16)
    ensures Bits(AndNot(a, b)) == Bits(a) & !Bits(b)
  {
    BitsComeBack(Bits(a) & !Bits(b));
  }

  lemma OneBit(x: bv16, y: bv16)
    ensures (x | y) & 2 != 0 <==> x & 2 != 0 || y & 2 != 0
    ensures (x & !y) & 2 != 0 <==> x & 2 != 0 && y & 2 == 0
  {
  }

  lemma BitByBit(a: U16, b: U16)
    ensures Reports(Or(a, b)) <==> Reports(a) || Reports(b)
    ensures Reports(AndNot(a, b)) <==> Reports(a) && !Reports(b)
  {
    hide Bits, Or, AndNot;
    BitsOfOr(a, b);
    BitsOfAndNot(a, b);
    OneBit(Bits(a), Bits(b));
  }

  /** Flags added report releases if either did, flags taken away stop it if they say so, and flags put in place decide. */
  lemma ReleasesFollowTheFlags(k: Keys, flags: U16, mode: U16)
    ensures ReportsReleases(Changed(k, flags, mode)) <==>
            if mode == 2 then ReportsReleases(k) || Reports(flags)
            else if mode == 3 then ReportsReleases(k) && !Reports(flags)
            else Reports(flags)
  {
    hide Or, AndNot, Reports;
    BitByBit(Top(k), flags);
  }

  /**
    Whatever a sequence says, it works at the top: xterm's level stands, the base
    changes only where nothing is pushed, and what was pushed is added to by one
    (the oldest lost if there was no room), cut back, or changed in its newest.
   */
  lemma NoteTouchesTheTop(k: Keys, params: Bytes)
    requires |k.stack| <= KEYBOARD_STACK
    ensures var now, n := Noted(k, params), |k.stack|;
            && now.otherKeys == k.otherKeys
            && (now.base != k.base ==> k.stack == [] == now.stack)
            && (|now.stack| > n ==> k.stack == now.stack[..n] && |now.stack| == n + 1)
            && (|now.stack| < n ==> now.stack <= k.stack)
            && (|now.stack| == n > 0 ==>
                  now.stack[..n - 1] == k.stack[..n - 1] || (n == KEYBOARD_STACK && now.stack[..n - 1] == k.stack[1..]))
  {
    hide Or, AndNot, Utf8.FromUtf8, Split, ParseU16;
  }

  // ----- Reading a replay -----

  lemma {:induction false} FedInTurn(r: Reader, a: Bytes, b: Bytes)
    ensures FedAll(r, a + b) == FedAll(FedAll(r, a), b)
    decreases |b|
  {
    if b == [] {
      assert a + b == a;
    } else {
      assert (a + b)[..|a + b| - 1] == a + b[..|b| - 1];
      FedInTurn(r, a, b[..|b| - 1]);
    }
  }

  /** Characters of one byte each. */
  predicate IsAscii(s: string) {
    forall i | 0 <= i < |s| :: s[i] < '\U{80}'
  }

  lemma {:induction false} EncodeInTurn(a: string, b: string)
    ensures Utf8.Encode(a + b) == Utf8.Encode(a) + Utf8.Encode(b)
  {
    if a == "" {
      assert a + b == b;
    } else {
      hide Utf8.EncodeChar;
      assert (a + b)[1..] == a[1..] + b;
      EncodeInTurn(a[1..], b);
    }
  }

  lemma {:induction false} AsciiBytes(s: string)
    requires IsAscii(s)
    ensures |Utf8.Encode(s)| == |s| && forall i | 0 <= i < |s| :: Utf8.Encode(s)[i] as int == s[i] as int
  {
    if s != "" { AsciiBytes(s[1..]); }
  }

  /** Digits and semicolons, and what may lead them. */
  predicate IsParams(s: string) {
    forall i | 0 <= i < |s| :: '\U{20}' <= s[i] <= '\U{3F}'
  }

  lemma {:induction false} ParamsAreKept(r: Reader, params: Bytes)
    requires r.state == Csi && |r.csi| + |params| <= MAX_CSI
    requires forall i | 0 <= i < |params| :: 0x20 <= params[i] <= 0x3F
    ensures FedAll(r, params) == r.(csi := r.csi + params)
    decreases |params|
  {
    if params == [] {
      assert r.csi + params == r.csi;
    } else {
      ParamsAreKept(r, params[..|params| - 1]);
      assert params == params[..|params| - 1] + [params[|params| - 1]];
    }
  }

  lemma FedOne(r: Reader, a: Byte)
    ensures FedAll(r, []) == r && FedAll(r, [a]) == Fed(r, a)
  {
    assert [a][..0] == [];
  }

  /** An escape and a bracket begin a sequence. */
  lemma SequenceBegins(keys: Keys)
    ensures FedAll(Reader(Ground, [], keys), Utf8.Encode("\U{1B}[")) == Reader(Csi, [], keys)
  {
    var start := Reader(Ground, [], keys);
    AsciiBytes("\U{1B}[");
    assert Utf8.Encode("\U{1B}[") == [0x1B] + ['[' as Byte];
    FedInTurn(start, [0x1B], ['[' as Byte]);
    FedOne(start, 0x1B);
    FedOne(Reader(Escape, [], keys), '[' as Byte);
  }

  lemma SequenceEnds(keys: Keys, params: Bytes, final: char)
    requires '@' <= final <= '~'
    ensures FedAll(Reader(Csi, params, keys), Utf8.Encode([final])) == Reader(Ground, [], Finished(keys, params, final as Byte))
  {
    hide Finished;
    AsciiBytes([final]);
    assert Utf8.Encode([final]) == [final as Byte];
    FedOne(Reader(Csi, params, keys), final as Byte);
  }

  /** A whole sequence does what its parameters and its last byte say, and leaves nothing else behind. */
  lemma SequenceIsRead(keys: Keys, params: string, final: char)
    requires IsParams(params) && |params| <= MAX_CSI && '@' <= final <= '~'
    ensures FedAll(Reader(Ground, [], keys), Utf8.Encode("\U{1B}[" + params + [final]))
         == Reader(Ground, [], Finished(keys, Utf8.Encode(params), final as Byte))
  {
    AsciiBytes(params);
    hide Finished, Fed, Utf8.EncodeChar;
    var start, bytes := Reader(Ground, [], keys), Utf8.Encode(params);
    EncodeInTurn("\U{1B}[" + params, [final]);
    EncodeInTurn("\U{1B}[", params);
    FedInTurn(start, Utf8.Encode("\U{1B}[") + bytes, Utf8.Encode([final]));
    FedInTurn(start, Utf8.Encode("\U{1B}["), bytes);
    SequenceBegins(keys);
    ParamsAreKept(Reader(Csi, [], keys), bytes);
    assert [] + bytes == bytes;
    SequenceEnds(keys, bytes, final);
  }

  /** What is written is read: text made into bytes is that text again. */
  lemma FieldsAreRead(lead: char, text: string)
    requires lead < '\U{80}'
    ensures var params := Utf8.Encode([lead] + text);
            params != [] && params[0] == lead as Byte && Utf8.FromUtf8(params[1..]) == Ok(text)
  {
    assert ([lead] + text)[1..] == text;
    Utf8.EncodedTextIsUtf8(text);
    assert Utf8.Encode([lead] + text) == [lead as Byte] + Utf8.Encode(text);
    assert ([lead as Byte] + Utf8.Encode(text))[1..] == Utf8.Encode(text);
  }

  lemma TwoFields(a: U16, b: U16)
    ensures Split(Decimal(a) + ";" + Decimal(b), ';') == [Decimal(a), Decimal(b)]
    ensures ParseU16(Decimal(a)) == Some(a) && ParseU16(Decimal(b)) == Some(b)
  {
    SplitAtSeparator(Decimal(a), ';', Decimal(b));
    SplitWithoutSeparator(Decimal(b), ';');
    ParseOfDecimal(a);
    ParseOfDecimal(b);
  }

  /** No number a keyboard holds takes more than five digits. */
  lemma DecimalIsShort(n: U16)
    ensures |Decimal(n)| <= 5 && IsParams(Decimal(n))
  {
    DigitsOf(n, 5);
    var digits := Decimal(n);
    forall i | 0 <= i < |digits| ensures '\U{20}' <= digits[i] <= '\U{3F}' { assert digits[i] in digits; }
  }

  function PowerOfTen(k: nat): nat {
    if k == 0 then 1 else 10 * PowerOfTen(k - 1)
  }

  lemma {:induction false} DigitsOf(n: nat, k: nat)
    requires k > 0 && n < PowerOfTen(k)
    ensures |Decimal(n)| <= k
    decreases k
  {
    if n >= 10 { DigitsOf(n / 10, k - 1); }
  }

  lemma BaseIsRead(keys: Keys, base: U16)
    requires keys.stack == []
    ensures var text := "=" + Decimal(base) + ";1";
            IsParams(text) && |text| <= MAX_CSI && Noted(keys, Utf8.Encode(text)) == keys.(base := base)
  {
    hide Decimal, Or, AndNot, Utf8.FromUtf8, Utf8.EncodeChar, Split, ParseU16;
    var text := Decimal(base) + ";1";
    DecimalIsShort(base);
    TwoFields(base, 1);
    OneIsOne();
    FieldsAreRead('=', text);
    assert "=" + Decimal(base) + ";1" == ['='] + text;
    assert Decimal(base) + ";" + "1" == text;
  }

  lemma OneIsOne()
    ensures Decimal(1) == "1" && Decimal(4) == "4"
  {
  }

  lemma PushIsRead(keys: Keys, flags: U16)
    ensures var text := ">" + Decimal(flags);
            IsParams(text) && |text| <= MAX_CSI && Noted(keys, Utf8.Encode(text)) == Pushed(keys, flags)
  {
    hide Decimal, Pushed;
    DecimalIsShort(flags);
    SplitWithoutSeparator(Decimal(flags), ';');
    ParseOfDecimal(flags);
    FieldsAreRead('>', Decimal(flags));
    assert ">" + Decimal(flags) == ['>'] + Decimal(flags);
  }

  lemma OtherKeysAreRead(keys: Keys, level: U16)
    ensures var text := ">4;" + Decimal(level);
            IsParams(text) && |text| <= MAX_CSI && Modified(keys, Utf8.Encode(text)) == keys.(otherKeys := Some(level))
  {
    var text := "4;" + Decimal(level);
    DecimalIsShort(level);
    TwoFields(4, level);
    OneIsOne();
    hide Decimal;
    FieldsAreRead('>', text);
    assert ">4;" + Decimal(level) == ['>'] + text;
    assert "4" + ";" + Decimal(level) == text;
  }

  lemma OnePushIsRead(keys: Keys, flags: U16)
    ensures FedAll(Reader(Ground, [], keys), Utf8.Encode("\U{1B}[>" + Decimal(flags) + "u"))
         == Reader(Ground, [], Pushed(keys, flags))
  {
    hide Noted, Decimal, Fed, Pushed, Utf8.EncodeChar;
    PushIsRead(keys, flags);
    SequenceIsRead(keys, ">" + Decimal(flags), 'u');
    assert "\U{1B}[" + (">" + Decimal(flags)) + "u" == "\U{1B}[>" + Decimal(flags) + "u";
  }

  /** Pushed from the bottom up onto nothing, a stack that fits is there again. */
  lemma {:induction false} PushesAreRead(base: U16, stack: seq<U16>)
    requires |stack| <= KEYBOARD_STACK
    ensures FedAll(Reader(Ground, [], Keys(base, [], None)), Utf8.Encode(Pushes(stack)))
         == Reader(Ground, [], Keys(base, stack, None))
    decreases |stack|
  {
    hide Decimal, Fed;
    var start := Reader(Ground, [], Keys(base, [], None));
    if stack == [] {
      FedOne(start, 0);
    } else {
      var below, flags := stack[..|stack| - 1], stack[|stack| - 1];
      PushesAreRead(base, below);
      EncodeInTurn(Pushes(below), "\U{1B}[>" + Decimal(flags) + "u");
      FedInTurn(start, Utf8.Encode(Pushes(below)), Utf8.Encode("\U{1B}[>" + Decimal(flags) + "u"));
      OnePushIsRead(Keys(base, below, None), flags);
      assert stack == below + [flags];
    }
  }

  /** What a replay puts back: everything, a level of nought being no level. */
  function Restored(k: Keys): Keys {
    k.(otherKeys := if k.otherKeys == Some(0) then None else k.otherKeys)
  }

  /** A replay read by a reader that has seen nothing leaves it with the same keyboard. */
  lemma ReplayRestores(k: Keys)
    requires |k.stack| <= KEYBOARD_STACK
    ensures FedAll(AT_START, Utf8.Encode(Replayed(k))) == Reader(Ground, [], Restored(k))
  {
    hide Noted, Modified, Decimal, Fed, Pushes, Utf8.EncodeChar;
    var first := if k.base != 0 then "\U{1B}[=" + Decimal(k.base) + ";1u" else "";
    var last := if k.otherKeys.Some? && k.otherKeys.value != 0 then "\U{1B}[>4;" + Decimal(k.otherKeys.value) + "m" else "";
    EncodeInTurn(first + Pushes(k.stack), last);
    EncodeInTurn(first, Pushes(k.stack));
    var a, b, c := Utf8.Encode(first), Utf8.Encode(Pushes(k.stack)), Utf8.Encode(last);
    FedInTurn(AT_START, a + b, c);
    FedInTurn(AT_START, a, b);
    FirstIsRead(k.base);
    PushesAreRead(k.base, k.stack);
    LastIsRead(Keys(k.base, k.stack, None), k.otherKeys);
  }

  lemma FirstIsRead(base: U16)
    ensures var first := if base != 0 then "\U{1B}[=" + Decimal(base) + ";1u" else "";
            FedAll(AT_START, Utf8.Encode(first)) == Reader(Ground, [], Keys(base, [], None))
  {
    hide Noted, Decimal, Fed;
    if base == 0 {
      assert Utf8.Encode("") == [];
    } else {
      BaseIsRead(UNTOUCHED, base);
      SequenceIsRead(UNTOUCHED, "=" + Decimal(base) + ";1", 'u');
      assert "\U{1B}[" + ("=" + Decimal(base) + ";1") + "u" == "\U{1B}[=" + Decimal(base) + ";1u";
    }
  }

  lemma LastIsRead(keys: Keys, level: Option<U16>)
    requires keys.otherKeys == None
    ensures var last := if level.Some? && level.value != 0 then "\U{1B}[>4;" + Decimal(level.value) + "m" else "";
            FedAll(Reader(Ground, [], keys), Utf8.Encode(last)) == Reader(Ground, [], Restored(keys.(otherKeys := level)))
  {
    hide Modified, Decimal, Fed;
    if level.None? || level.value == 0 {
      assert Utf8.Encode("") == [];
    } else {
      OtherKeysAreRead(keys, level.value);
      SequenceIsRead(keys, ">4;" + Decimal(level.value), 'm');
      assert "\U{1B}[" + (">4;" + Decimal(level.value)) + "m" == "\U{1B}[>4;" + Decimal(level.value) + "m";
    }
  }

  // ----- And goes on agreeing -----

  /** Keyboards no sequence tells apart, and nor does a replay. */
  predicate Alike(a: Keys, b: Keys) {
    Restored(a) == Restored(b)
  }

  lemma StayAlike(a: Keys, b: Keys, params: Bytes, final: Byte)
    requires Alike(a, b)
    ensures Alike(Finished(a, params, final), Finished(b, params, final))
  {
    hide Or, AndNot, Utf8.FromUtf8, Split, ParseU16;
  }

  predicate ReadAlike(r: Reader, t: Reader) {
    r.state == t.state && r.csi == t.csi && Alike(r.keys, t.keys)
  }

  lemma OneByteStaysAlike(r: Reader, t: Reader, b: Byte)
    requires ReadAlike(r, t)
    ensures ReadAlike(Fed(r, b), Fed(t, b))
  {
    hide Finished;
    StayAlike(r.keys, t.keys, r.csi, b);
  }

  lemma {:induction false} BytesStayAlike(r: Reader, t: Reader, more: Bytes)
    requires ReadAlike(r, t)
    ensures ReadAlike(FedAll(r, more), FedAll(t, more))
    decreases |more|
  {
    hide Fed, ReadAlike;
    if more != [] {
      BytesStayAlike(r, t, more[..|more| - 1]);
      OneByteStaysAlike(FedAll(r, more[..|more| - 1]), FedAll(t, more[..|more| - 1]), more[|more| - 1]);
    }
  }

  /** What every reader is that has read from the start. */
  predicate Sane(r: Reader) {
    |r.keys.stack| <= KEYBOARD_STACK && (r.state != Csi ==> r.csi == [])
  }

  lemma {:induction false} ReadersAreSane(r: Reader, bytes: Bytes)
    requires Sane(r)
    ensures Sane(FedAll(r, bytes))
    decreases |bytes|
  {
    if bytes != [] {
      hide Finished;
      ReadersAreSane(r, bytes[..|bytes| - 1]);
      var before := FedAll(r, bytes[..|bytes| - 1]);
      FinishedStaysShallow(before.keys, before.csi, bytes[|bytes| - 1]);
    }
  }

  lemma FinishedStaysShallow(k: Keys, params: Bytes, final: Byte)
    requires |k.stack| <= KEYBOARD_STACK
    ensures |Finished(k, params, final).stack| <= KEYBOARD_STACK
  {
    hide Noted;
    NotingStaysShallow(k, params);
  }

  /** The reader that saw a program's output, and one that was given only a replay taken at its end. */
  function Saw(output: Bytes): Reader {
    FedAll(AT_START, output)
  }

  function Told(output: Bytes): Reader {
    FedAll(AT_START, Utf8.Encode(Replayed(Saw(output).keys)))
  }

  lemma ToldIsAtTheGround(output: Bytes)
    ensures Sane(Saw(output)) && Told(output) == Reader(Ground, [], Restored(Saw(output).keys))
  {
    ReadersAreSane(AT_START, output);
    ReplayRestores(Saw(output).keys);
  }

  /**
    Replayed between sequences, and whatever the program prints after, the two hold
    keyboards alike: they report releases together, and a replay of either is the same.
   */
  lemma ReplayedGoesOnAgreeing(output: Bytes, more: Bytes)
    requires Saw(output).state == Ground
    ensures var seen, told := FedAll(Saw(output), more), FedAll(Told(output), more);
            && ReadAlike(seen, told)
            && ReportsReleases(seen.keys) == ReportsReleases(told.keys)
            && Replayed(seen.keys) == Replayed(told.keys)
  {
    hide Fed, Replayed, ReportsReleases, Saw, Told, FedAll, Utf8.Encode;
    ToldIsAtTheGround(output);
    BytesStayAlike(Saw(output), Told(output), more);
    AlikeReplaysAlike(FedAll(Saw(output), more).keys, FedAll(Told(output), more).keys);
  }

  /** Between sequences and only there: in the middle of one, some output is read as two different things. */
  lemma AgreesExactlyBetweenSequences(output: Bytes)
    ensures Saw(output).state == Ground <==>
            forall more: Bytes ::
              ReportsReleases(FedAll(Saw(output), more).keys) == ReportsReleases(FedAll(Told(output), more).keys)
  {
    hide Saw, Told, FedAll, ReportsReleases;
    if Saw(output).state == Ground {
      forall more: Bytes
        ensures ReportsReleases(FedAll(Saw(output), more).keys) == ReportsReleases(FedAll(Told(output), more).keys)
      {
        ReplayedGoesOnAgreeing(output, more);
      }
    } else {
      var more := PartsThem(output);
    }
  }

  /** A push of flags that change the answer, its escape left out where one has been read already. */
  lemma PartsThem(output: Bytes) returns (more: Bytes)
    requires Saw(output).state != Ground
    ensures ReportsReleases(FedAll(Saw(output), more).keys) != ReportsReleases(FedAll(Told(output), more).keys)
  {
    ToldIsAtTheGround(output);
    var k := Saw(output).keys;
    var flags: U16 := if ReportsReleases(k) then 0 else 2;
    hide Saw, Told, FedAll, ReportsReleases;
    PushingDecides(k, flags);
    PushingDecides(Restored(k), flags);
    if Saw(output).state == Escape {
      more := PushBytes(flags)[1..];
      AfterItsEscape(k, flags);
      TextIsNothing(Restored(k), flags);
    } else {
      more := PushBytes(flags);
      PushIsTaken(Restored(k), flags);
      PushIsSwallowed(Saw(output), flags);
    }
    AlikeReplaysAlike(k, Restored(k));
  }

  lemma PushingDecides(k: Keys, flags: U16)
    ensures ReportsReleases(Pushed(k, flags)) == Reports(flags)
    ensures Reports(2) && !Reports(0)
  {
  }

  /** `CSI > flags u`, for flags of one digit. */
  function PushBytes(flags: U16): Bytes
    requires flags < 10
  {
    [0x1B, '[' as Byte, '>' as Byte, '0' as Byte + flags as Byte, 'u' as Byte]
  }

  lemma PushIsTaken(k: Keys, flags: U16)
    requires flags < 10
    ensures FedAll(Reader(Ground, [], k), PushBytes(flags)) == Reader(Ground, [], Pushed(k, flags))
  {
    OnePushIsRead(k, flags);
    var text := "\U{1B}[>" + Decimal(flags) + "u";
    AsciiBytes(text);
    assert Utf8.Encode(text) == PushBytes(flags);
  }

  lemma AfterItsEscape(k: Keys, flags: U16)
    requires flags < 10
    ensures FedAll(Reader(Escape, [], k), PushBytes(flags)[1..]) == Reader(Ground, [], Pushed(k, flags))
  {
    hide Pushed;
    PushIsTaken(k, flags);
    assert PushBytes(flags) == [0x1B] + PushBytes(flags)[1..];
    FedInTurn(Reader(Ground, [], k), [0x1B], PushBytes(flags)[1..]);
    FedOne(Reader(Ground, [], k), 0x1B);
  }

  /** Fed from the front. */
  lemma FedFirst(r: Reader, bytes: Bytes)
    requires bytes != []
    ensures FedAll(r, bytes) == FedAll(Fed(r, bytes[0]), bytes[1..])
  {
    hide Fed;
    assert bytes == [bytes[0]] + bytes[1..];
    FedInTurn(r, [bytes[0]], bytes[1..]);
    FedOne(r, bytes[0]);
  }

  lemma {:induction false} TextOf(k: Keys, bytes: Bytes)
    requires 0x1B !in bytes
    ensures FedAll(Reader(Ground, [], k), bytes) == Reader(Ground, [], k)
    decreases |bytes|
  {
    if bytes != [] { TextOf(k, bytes[..|bytes| - 1]); }
  }

  lemma TextIsNothing(k: Keys, flags: U16)
    requires flags < 10
    ensures FedAll(Reader(Ground, [], k), PushBytes(flags)[1..]) == Reader(Ground, [], k)
  {
    TextOf(k, PushBytes(flags)[1..]);
  }

  /** In the middle of a sequence a push is part of it, or text after its bracket ends it. */
  lemma PushIsSwallowed(r: Reader, flags: U16)
    requires flags < 10 && r.state != Ground && r.state != Escape
    ensures FedAll(r, PushBytes(flags)).keys == r.keys
  {
    var bytes := PushBytes(flags);
    var held := Fed(Fed(r, 0x1B), '[' as Byte);
    FedFirst(r, bytes);
    FedFirst(Fed(r, 0x1B), bytes[1..]);
    var rest := bytes[2..];
    assert bytes[1..][1..] == rest && rest == [bytes[2], bytes[3], bytes[4]];
    if r.state == Csi {
      TextOf(r.keys, rest);
    } else {
      StaysInside(held, rest);
    }
  }

  lemma {:induction false} StaysInside(r: Reader, bytes: Bytes)
    requires r.state == Osc || r.state == Ignored
    requires 0x1B !in bytes && 0x07 !in bytes
    ensures FedAll(r, bytes) == r
    decreases |bytes|
  {
    if bytes != [] { StaysInside(r, bytes[..|bytes| - 1]); }
  }

  lemma AlikeReplaysAlike(a: Keys, b: Keys)
    requires Alike(a, b)
    ensures Replayed(a) == Replayed(b) && ReportsReleases(a) == ReportsReleases(b)
  {
    hide Pushes, Decimal;
  }
}
