/**
  src/utf8.rs: turning bytes that arrive in arbitrary chunks into text.

  The grammar is the one in section 4 of RFC 3629; what is replaced when bytes
  are not in it is the maximal subpart of section 3.9 of the Unicode Standard.
  `FromUtf8` is the standard library's `from_utf8` as documented, and
  `Utf8Decoder.Decode` is the loop built on it.
 */
module Utf8 {
  import opened Bytes
  import opened Wrappers

  const REPLACEMENT: char := '\U{FFFD}'

  // ----- The grammar -----

  /** How many bytes a sequence led by `lead` has; none begins with one that has 0. */
  function Width(lead: Byte): nat {
    if lead < 0x80 then 1
    else if 0xC2 <= lead <= 0xDF then 2
    else if 0xE0 <= lead <= 0xEF then 3
    else if 0xF0 <= lead <= 0xF4 then 4
    else 0
  }

  /** Whether `b` may stand at index `at`, one or more, of a sequence led by `lead`. */
  predicate Follows(lead: Byte, at: nat, b: Byte) {
    if at != 1 then 0x80 <= b <= 0xBF
    else if lead == 0xE0 then 0xA0 <= b <= 0xBF
    else if lead == 0xED then 0x80 <= b <= 0x9F
    else if lead == 0xF0 then 0x90 <= b <= 0xBF
    else if lead == 0xF4 then 0x80 <= b <= 0x8F
    else 0x80 <= b <= 0xBF
  }

  /** A non-empty beginning of a well-formed sequence, perhaps all of it. */
  predicate Begins(s: Bytes) {
    && 0 < |s| <= Width(s[0])
    && (|s| > 1 ==> Follows(s[0], 1, s[1]))
    && (|s| > 2 ==> Follows(s[0], 2, s[2]))
    && (|s| > 3 ==> Follows(s[0], 3, s[3]))
  }

  predicate WellFormed(s: Bytes) {
    Begins(s) && |s| == Width(s[0])
  }

  predicate Truncated(s: Bytes) {
    Begins(s) && |s| < Width(s[0])
  }

  /** `Begins` is what its name says: there are bytes that complete it. */
  lemma BeginsIsAPrefixOfAWellFormedSequence(s: Bytes)
    ensures Begins(s) <==> s != [] && exists t: Bytes :: WellFormed(s + t)
  {
    if Begins(s) {
      var t := Completed(s, Width(s[0]) - |s|);
      assert WellFormed(s + t);
    } else if s != [] {
      forall t: Bytes ensures !WellFormed(s + t) { PrefixBegins(s, t); }
    }
  }

  /** Bytes completing a beginning that lacks `missing` of them. */
  lemma Completed(s: Bytes, missing: nat) returns (t: Bytes)
    requires Begins(s) && |s| + missing == Width(s[0])
    ensures WellFormed(s + t)
    decreases missing
  {
    if missing == 0 {
      assert s + [] == s;
      return [];
    }
    var next: Byte := if |s| != 1 then 0x80 else if s[0] == 0xE0 then 0xA0 else if s[0] == 0xF0 then 0x90 else 0x80;
    assert Follows(s[0], |s|, next);
    var rest := Completed(s + [next], missing - 1);
    assert s + [next] + rest == s + ([next] + rest);
    t := [next] + rest;
  }

  lemma PrefixBegins(s: Bytes, t: Bytes)
    requires s != []
    ensures WellFormed(s + t) ==> Begins(s)
  {
    assert (s + t)[0] == s[0];
    assert |s| > 1 ==> (s + t)[1] == s[1];
    assert |s| > 2 ==> (s + t)[2] == s[2];
    assert |s| > 3 ==> (s + t)[3] == s[3];
  }

  function EncodeChar(c: char): Bytes {
    var v := c as int;
    var high := v / 64;
    var higher := high / 64;
    if v < 0x80 then [v as Byte]
    else if v < 0x800 then [(0xC0 + high) as Byte, (0x80 + v % 64) as Byte]
    else if v < 0x10000 then [(0xE0 + higher) as Byte, (0x80 + high % 64) as Byte, (0x80 + v % 64) as Byte]
    else
      [(0xF0 + higher / 64) as Byte, (0x80 + higher % 64) as Byte, (0x80 + high % 64) as Byte, (0x80 + v % 64) as Byte]
  }

  /** The number a well-formed sequence spells. */
  function Spelled(s: Bytes): (v: int)
    requires WellFormed(s)
    ensures 0 <= v < 0xD800 || 0xE000 <= v < 0x11_0000
    ensures |s| == 1 <==> v < 0x80
    ensures |s| <= 2 <==> v < 0x800
    ensures |s| <= 3 <==> v < 0x10000
  {
    var lead := s[0] as int;
    if |s| == 1 then lead
    else
      var second := s[1] as int - 0x80;
      if |s| == 2 then (lead - 0xC0) * 64 + second
      else
        var third := s[2] as int - 0x80;
        if |s| == 3 then (lead - 0xE0) * 4096 + second * 64 + third
        else (lead - 0xF0) * 262144 + second * 4096 + third * 64 + (s[3] as int - 0x80)
  }

  function DecodeChar(s: Bytes): char
    requires WellFormed(s)
  {
    Spelled(s) as char
  }

  lemma EncodedCharDecodes(c: char)
    ensures WellFormed(EncodeChar(c))
    ensures DecodeChar(EncodeChar(c)) == c
  {
    var v := c as int;
    var high := v / 64;
    var higher := high / 64;
    assert v == high * 64 + v % 64;
    assert high == higher * 64 + high % 64;
    assert higher == higher / 64 * 64 + higher % 64;
    var s := EncodeChar(c);
    assert WellFormed(s);
    assert Spelled(s) == v;
  }

  /** The bits of a character from the highest: those of the lead after its marker, then six in each byte after it. */
  lemma CharIsLaidOut(c: char)
    ensures var s := EncodeChar(c);
            || (|s| == 1 && s[0] < 0x80 && c as int == s[0] as int)
            || (|s| == 2 && 0xC0 <= s[0] < 0xE0 && c as int == (s[0] as int - 0xC0) * 64 + (s[1] as int - 0x80))
            || (|s| == 3 && 0xE0 <= s[0] < 0xF0
                && c as int == (s[0] as int - 0xE0) * 4096 + (s[1] as int - 0x80) * 64 + (s[2] as int - 0x80))
            || (|s| == 4 && 0xF0 <= s[0]
                && c as int == (s[0] as int - 0xF0) * 262144 + (s[1] as int - 0x80) * 4096 + (s[2] as int - 0x80) * 64
                               + (s[3] as int - 0x80))
    ensures forall i | 1 <= i < |EncodeChar(c)| :: 0x80 <= EncodeChar(c)[i] < 0xC0
  {
    var v := c as int;
    assert v == v / 64 * 64 + v % 64;
    assert v / 64 == v / 64 / 64 * 64 + v / 64 % 64;
    assert v / 64 / 64 == v / 64 / 64 / 64 * 64 + v / 64 / 64 % 64;
  }

  lemma DecodedCharEncodes(s: Bytes)
    requires WellFormed(s)
    ensures EncodeChar(DecodeChar(s)) == s
  {
    var v := Spelled(s);
    if |s| == 2 {
      Split64(s[0] as int - 0xC0, s[1] as int - 0x80);
    } else if |s| == 3 {
      Split64((s[0] as int - 0xE0) * 64 + (s[1] as int - 0x80), s[2] as int - 0x80);
      Split64(s[0] as int - 0xE0, s[1] as int - 0x80);
    } else if |s| == 4 {
      var high := (s[0] as int - 0xF0) * 64 + (s[1] as int - 0x80);
      Split64(high * 64 + (s[2] as int - 0x80), s[3] as int - 0x80);
      Split64(high, s[2] as int - 0x80);
      Split64(s[0] as int - 0xF0, s[1] as int - 0x80);
    }
  }

  lemma Split64(a: int, b: int)
    requires 0 <= b < 64
    ensures (a * 64 + b) / 64 == a && (a * 64 + b) % 64 == b
  {
  }

  function Encode(text: string): Bytes {
    if text == "" then [] else EncodeChar(text[0]) + Encode(text[1..])
  }

  // ----- Reading one unit -----

  /** What stands first in some bytes. */
  datatype Head =
    | Whole(width: nat)   // a well-formed sequence
    | Broken(width: nat)  // a maximal subpart of none
    | Cut                 // the beginning of one, and nothing after it

  /** How far past `k` the bytes go on being the beginning of one sequence. */
  function Reach(s: Bytes, k: nat): (r: nat)
    requires 1 <= k <= |s| && Begins(s[..k])
    ensures k <= r <= |s| && Begins(s[..r])
    ensures r < |s| ==> !Begins(s[..r + 1])
    decreases |s| - k
  {
    if k < |s| && k < Width(s[0]) && Follows(s[0], k, s[k]) then
      Reach(s, k + 1)
    else
      assert k < |s| ==> s[..k + 1][k] == s[k];
      k
  }

  function Look(s: Bytes): (h: Head)
    requires s != []
    ensures h.Whole? ==> 1 <= h.width <= |s| && WellFormed(s[..h.width])
    ensures h.Broken? ==> 1 <= h.width <= 3 && h.width <= |s| && MaximalSubpart(s, h.width)
    ensures h.Cut? <==> Truncated(s)
  {
    if Width(s[0]) == 0 then Broken(1)
    else
      var k := Reach(s, 1);
      if k == Width(s[0]) then
        assert s[..k][0] == s[0];
        Whole(k)
      else if k == |s| then
        assert s[..k] == s;
        Cut
      else Broken(k)
  }

  /** The longest beginning of `s` that begins any sequence, or one byte if none does. */
  predicate MaximalSubpart(s: Bytes, n: nat) {
    && 1 <= n <= |s|
    && !WellFormed(s[..n])
    && (Begins(s[..n]) || n == 1)
    && (forall m | n < m <= |s| :: !Begins(s[..m]))
    && !Truncated(s)
  }

  /** What stands first does not change when more bytes arrive, unless it was cut. */
  lemma LookIsLocal(s: Bytes, more: Bytes)
    requires s != [] && !Look(s).Cut?
    ensures Look(s + more) == Look(s)
  {
    if Width(s[0]) != 0 { ReachIsLocal(s, more, 1); }
  }

  lemma ReachIsLocal(s: Bytes, more: Bytes, k: nat)
    requires 1 <= k <= |s| && Begins(s[..k])
    requires Reach(s, k) < |s| || Reach(s, k) == Width(s[0])
    ensures (s + more)[..k] == s[..k]
    ensures Reach(s + more, k) == Reach(s, k)
    decreases |s| - k
  {
    assert (s + more)[..k] == s[..k];
    if k < |s| && k < Width(s[0]) && Follows(s[0], k, s[k]) {
      ReachIsLocal(s, more, k + 1);
    }
  }

  // ----- from_utf8 -----

  /** How much is valid, and how long what follows it is; no length if it was cut short. */
  datatype Utf8Error = Utf8Error(validUpTo: nat, errorLen: Option<nat>)

  function FromUtf8(s: Bytes): Result<string, Utf8Error> {
    if s == [] then Ok("")
    else
      match Look(s)
      case Broken(n) => Err(Utf8Error(0, Some(n)))
      case Cut => Err(Utf8Error(0, None))
      case Whole(n) =>
        match FromUtf8(s[n..])
        case Ok(text) => Ok([DecodeChar(s[..n])] + text)
        case Err(e) => Err(e.(validUpTo := n + e.validUpTo))
  }

  /** The documented contract: valid up to an offset, and what stands there. */
  lemma {:induction false} FromUtf8Reports(s: Bytes)
    ensures FromUtf8(s).Ok? ==> Encode(FromUtf8(s).value) == s
    ensures FromUtf8(s).Err? ==> Reported(s, FromUtf8(s).error)
  {
    hide Look, FromUtf8, Encode, Reported;
    if s == [] || !Look(s).Whole? {
      FirstUnitReports(s);
    } else {
      FromUtf8Reports(s[Look(s).width..]);
      OneMoreReports(s);
    }
  }

  lemma FirstUnitReports(s: Bytes)
    requires s == [] || !Look(s).Whole?
    ensures FromUtf8(s).Ok? ==> Encode(FromUtf8(s).value) == s
    ensures FromUtf8(s).Err? ==> Reported(s, FromUtf8(s).error)
  {
    hide Look;
    assert s[0..] == s && s[..0] == [];
  }

  lemma OneMoreReports(s: Bytes)
    requires s != [] && Look(s).Whole?
    requires var rest := FromUtf8(s[Look(s).width..]);
             && (rest.Ok? ==> Encode(rest.value) == s[Look(s).width..])
             && (rest.Err? ==> Reported(s[Look(s).width..], rest.error))
    ensures FromUtf8(s).Ok? ==> Encode(FromUtf8(s).value) == s
    ensures FromUtf8(s).Err? ==> Reported(s, FromUtf8(s).error)
  {
    hide *;
    var n := Look(s).width;
    OneMoreRead(s);
    if FromUtf8(s[n..]).Err? {
      ReportedFurtherOn(s, FromUtf8(s[n..]).error);
    } else {
      DecodedCharEncodes(s[..n]);
      EncodedOneMore(DecodeChar(s[..n]), FromUtf8(s[n..]).value);
      assert s[..n] + s[n..] == s;
    }
  }

  lemma OneMoreRead(s: Bytes)
    requires s != [] && Look(s).Whole?
    ensures var n := Look(s).width;
            FromUtf8(s) == match FromUtf8(s[n..])
                           case Ok(text) => Ok([DecodeChar(s[..n])] + text)
                           case Err(e) => Err(e.(validUpTo := n + e.validUpTo))
  {
    hide Look, DecodeChar;
  }

  lemma EncodedOneMore(c: char, text: string)
    ensures Encode([c] + text) == EncodeChar(c) + Encode(text)
  {
    hide EncodeChar;
    assert ([c] + text)[1..] == text;
  }

  lemma ReportedFurtherOn(s: Bytes, e: Utf8Error)
    requires s != [] && Look(s).Whole? && Reported(s[Look(s).width..], e)
    ensures Reported(s, e.(validUpTo := Look(s).width + e.validUpTo))
  {
    hide Look, DecodeChar, FromUtf8;
    var n := Look(s).width;
    var v := n + e.validUpTo;
    LookAtPrefix(s, v);
    OneMoreRead(s[..v]);
    CutTwice(s, n, v);
  }

  lemma CutTwice(s: Bytes, n: nat, v: nat)
    requires n <= v <= |s|
    ensures s[v..] == s[n..][v - n..] && s[..v][n..] == s[n..][..v - n]
  {
  }

  predicate Reported(s: Bytes, e: Utf8Error) {
    && e.validUpTo < |s|
    && FromUtf8(s[..e.validUpTo]).Ok?
    && Look(s[e.validUpTo..]) == (if e.errorLen.Some? then Broken(e.errorLen.value) else Cut)
  }

  lemma LookAtPrefix(s: Bytes, v: nat)
    requires s != [] && Look(s).Whole? && Look(s).width <= v <= |s|
    ensures Look(s[..v]) == Look(s)
    ensures s[..v][..Look(s).width] == s[..Look(s).width]
  {
    hide Look, WellFormed, Begins, MaximalSubpart;
    var n := Look(s).width;
    var whole := s[..n];
    LookAtWhole(whole);
    LookIsLocal(whole, s[n..v]);
    assert whole + s[n..v] == s[..v];
  }

  lemma LookAtWhole(s: Bytes)
    requires WellFormed(s)
    ensures Look(s) == Whole(|s|)
  {
    var k := Reach(s, 1);
    if k < |s| { BeginsShrinks(s, k + 1); }
  }

  lemma BeginsShrinks(s: Bytes, k: nat)
    requires Begins(s) && 1 <= k <= |s|
    ensures Begins(s[..k])
  {
  }

  // ----- The whole of a stream, read at once -----

  datatype Unit =
    | Good(bytes: Bytes)
    | Bad(bytes: Bytes)

  /** A stream taken apart: its units in order, and a tail that is still incomplete. */
  datatype Scanned = Scanned(units: seq<Unit>, tail: Bytes)

  function Scan(s: Bytes): Scanned {
    if s == [] then Scanned([], [])
    else if Look(s).Cut? then Scanned([], s)
    else
      var rest := Scan(s[Look(s).width..]);
      Scanned([First(s)] + rest.units, rest.tail)
  }

  function First(s: Bytes): Unit
    requires s != [] && !Look(s).Cut?
  {
    var bytes := s[..Look(s).width];
    if Look(s).Whole? then Good(bytes) else Bad(bytes)
  }

  /** What a reader is shown: a character for a good unit, one U+FFFD for a bad one. */
  function Text(units: seq<Unit>): string {
    if units == [] then ""
    else
      var unit := units[0];
      [if unit.Good? && WellFormed(unit.bytes) then DecodeChar(unit.bytes) else REPLACEMENT] + Text(units[1..])
  }

  /** What some bytes show, read from a clean start. */
  function Shown(s: Bytes): string {
    Text(Scan(s).units)
  }

  lemma {:induction false} TextOfConcat(a: seq<Unit>, b: seq<Unit>)
    ensures Text(a + b) == Text(a) + Text(b)
  {
    if a == [] {
      assert a + b == b;
    } else {
      assert (a + b)[1..] == a[1..] + b;
      TextOfConcat(a[1..], b);
    }
  }

  /** Reading on from where a cut left off is reading the whole. */
  lemma {:induction false} ScanResumes(s: Bytes, more: Bytes)
    ensures Scan(s + more).units == Scan(s).units + Scan(Scan(s).tail + more).units
    ensures Scan(s + more).tail == Scan(Scan(s).tail + more).tail
    decreases |s|
  {
    hide Look, WellFormed, Begins, MaximalSubpart, First;
    if s == [] {
      assert s + more == more && [] + more == more;
    } else if !Look(s).Cut? {
      var n := Look(s).width;
      LookIsLocal(s, more);
      assert (s + more)[n..] == s[n..] + more;
      ScanResumes(s[n..], more);
      FirstIsLocal(s, more);
    }
  }

  lemma FirstIsLocal(s: Bytes, more: Bytes)
    requires s != [] && !Look(s).Cut?
    ensures Look(s + more) == Look(s) && First(s + more) == First(s)
  {
    hide Look, WellFormed, Begins, MaximalSubpart;
    LookIsLocal(s, more);
    assert (s + more)[..Look(s).width] == s[..Look(s).width];
  }

  // ----- The decoder -----

  predicate Held(tail: Bytes) {
    tail == [] || Truncated(tail)
  }

  class Utf8Decoder {
    var pending: Bytes

    /** What is held back is never anything but the beginning of a sequence. */
    predicate Valid()
      reads this
    {
      Held(pending)
    }

    constructor ()
      ensures pending == [] && Valid()
    {
      pending := [];
    }

    /** Everything decided by what has arrived so far, and nothing of what was not. */
    method Decode(chunk: Bytes) returns (out: string)
      modifies this
      ensures Valid() && |pending| <= 3
      ensures out == Shown(old(pending) + chunk)
      ensures pending == Scan(old(pending) + chunk).tail
    {
      hide Look, WellFormed, Begins, MaximalSubpart, FromUtf8, Scan, Text, Shown;
      var bytes;
      if pending == [] {
        bytes := chunk;
      } else {
        pending := pending + chunk;
        bytes := pending;
      }
      assert bytes == old(pending) + chunk;
      out := "";
      var rest := bytes;
      while true
        invariant Shown(bytes) == out + Shown(rest)
        invariant Scan(bytes).tail == Scan(rest).tail
        decreases |rest|
      {
        TextUpToError(rest);
        match FromUtf8(rest) {
          case Ok(s) =>
            out := out + s;
            rest := [];
            break;
          case Err(e) =>
            var valid := e.validUpTo;
            // Never the fallback: `TextUpToError` has it valid up to here.
            out := out + match FromUtf8(rest[..valid]) { case Ok(s) => s case Err(_) => "" };
            match e.errorLen {
              case Some(n) =>
                out := out + [REPLACEMENT];
                rest := rest[valid + n..];
              case None =>
                rest := rest[valid..];
                break;
            }
        }
      }
      pending := rest;
      ScanTailIsHeld(bytes);
    }
  }

  /** What one turn of the loop takes off the front. */
  lemma {:induction false} TextUpToError(s: Bytes)
    ensures FromUtf8(s).Ok? ==> Shown(s) == FromUtf8(s).value && Scan(s).tail == []
    ensures FromUtf8(s).Err? ==> Turn(s, FromUtf8(s).error)
  {
    hide Look, WellFormed, Begins, EncodeChar, DecodeChar, MaximalSubpart, Shown, Scan, FromUtf8, Turn;
    if s != [] && Look(s).Whole? {
      var n := Look(s).width;
      TextUpToError(s[n..]);
      AfterWhole(s);
      FromUtf8AfterWhole(s);
      if FromUtf8(s).Err? { TurnAfter(s, FromUtf8(s[n..]).error); }
    } else {
      TurnAtOnce(s);
    }
  }

  lemma TurnAtOnce(s: Bytes)
    requires s == [] || !Look(s).Whole?
    ensures s == [] ==> FromUtf8(s) == Ok("") && Shown(s) == "" && Scan(s).tail == []
    ensures s != [] ==> FromUtf8(s).Err? && Turn(s, FromUtf8(s).error)
  {
    hide Look, WellFormed, Begins, EncodeChar, DecodeChar, MaximalSubpart;
    if s != [] {
      assert s[0..] == s && s[..0] == [];
    }
  }

  predicate Turn(s: Bytes, e: Utf8Error) {
    && e.validUpTo < |s|
    && FromUtf8(s[..e.validUpTo]).Ok?
    && var text := FromUtf8(s[..e.validUpTo]).value;
    match e.errorLen
    case None => Scan(s).tail == s[e.validUpTo..] && Shown(s) == text
    case Some(n) =>
      && 1 <= n <= |s| - e.validUpTo
      && Scan(s).tail == Scan(s[e.validUpTo + n..]).tail
      && Shown(s) == text + [REPLACEMENT] + Shown(s[e.validUpTo + n..])
  }

  lemma AfterWhole(s: Bytes)
    requires s != [] && Look(s).Whole?
    ensures Shown(s) == [DecodeChar(s[..Look(s).width])] + Shown(s[Look(s).width..])
    ensures Scan(s).tail == Scan(s[Look(s).width..]).tail
  {
    hide Look, WellFormed, Begins, DecodeChar, MaximalSubpart, FromUtf8;
    var rest := Scan(s[Look(s).width..]);
    assert Scan(s).units == [First(s)] + rest.units;
    TextOfConcat([First(s)], rest.units);
  }

  lemma FromUtf8AfterWhole(s: Bytes)
    requires s != [] && Look(s).Whole?
    ensures match FromUtf8(s[Look(s).width..])
            case Ok(text) => FromUtf8(s) == Ok([DecodeChar(s[..Look(s).width])] + text)
            case Err(e) => FromUtf8(s) == Err(e.(validUpTo := Look(s).width + e.validUpTo))
  {
    hide Look, WellFormed, Begins, DecodeChar, MaximalSubpart, Scan, Text;
  }

  lemma TurnAfter(s: Bytes, e: Utf8Error)
    requires s != [] && Look(s).Whole? && Turn(s[Look(s).width..], e)
    ensures Turn(s, e.(validUpTo := Look(s).width + e.validUpTo))
  {
    hide Look, WellFormed, Begins, EncodeChar, DecodeChar, MaximalSubpart, Scan, Shown;
    var n := Look(s).width;
    var v := n + e.validUpTo;
    var rest := s[n..];
    LookAtPrefix(s, v);
    AfterWhole(s);
    assert s[v..] == rest[e.validUpTo..];
    assert s[..v][n..] == rest[..e.validUpTo];
    assert FromUtf8(s[..v]) == Ok([DecodeChar(s[..n])] + FromUtf8(rest[..e.validUpTo]).value);
    if e.errorLen.Some? {
      assert s[v + e.errorLen.value..] == rest[e.validUpTo + e.errorLen.value..];
    }
  }

  // ----- Any stream, cut anywhere -----

  /** What successive calls of `Decode` print and leave pending, by its contract. */
  function DecodeAll(pending: Bytes, chunks: seq<Bytes>): (string, Bytes)
    decreases |chunks|
  {
    if chunks == [] then ("", pending)
    else
      var first := Scan(pending + chunks[0]);
      var (text, left) := DecodeAll(first.tail, chunks[1..]);
      (Text(first.units) + text, left)
  }

  /** However a stream is cut, the text and the tail are those of one call on all of it. */
  lemma {:induction false} ChunksDoNotMatter(pending: Bytes, chunks: seq<Bytes>)
    requires Held(pending)
    ensures DecodeAll(pending, chunks) ==
            (Shown(pending + Flatten(chunks)), Scan(pending + Flatten(chunks)).tail)
    decreases |chunks|
  {
    hide Scan, Shown, Text, Held;
    if chunks == [] {
      assert pending + [] == pending;
      NothingShown(pending);
    } else {
      var first := Scan(pending + chunks[0]);
      var rest := Flatten(chunks[1..]);
      ScanTailIsHeld(pending + chunks[0]);
      ChunksDoNotMatter(first.tail, chunks[1..]);
      assert pending + Flatten(chunks) == pending + chunks[0] + rest;
      ShownInTurn(pending + chunks[0], rest);
    }
  }

  lemma NothingShown(s: Bytes)
    requires Held(s)
    ensures Shown(s) == "" && Scan(s).tail == s
  {
    NothingToScan(s);
  }

  lemma ShownInTurn(s: Bytes, more: Bytes)
    ensures Shown(s + more) == Text(Scan(s).units) + Shown(Scan(s).tail + more)
    ensures Scan(s + more).tail == Scan(Scan(s).tail + more).tail
  {
    hide Scan, Text;
    ScanResumes(s, more);
    TextOfConcat(Scan(s).units, Scan(Scan(s).tail + more).units);
  }

  lemma {:induction false} ScanTailIsHeld(s: Bytes)
    ensures Held(Scan(s).tail)
    ensures |Scan(s).tail| <= 3
  {
    if s != [] && !Look(s).Cut? { ScanTailIsHeld(s[Look(s).width..]); }
  }

  // ----- Every byte accounted for -----

  function Spread(units: seq<Unit>): Bytes {
    if units == [] then [] else units[0].bytes + Spread(units[1..])
  }

  /**
    A reading of `s`: good units are well formed, each bad one is the maximal
    subpart of what is left at that point, and the tail is empty or cut short.
   */
  predicate Reads(s: Bytes, reading: Scanned)
    decreases |reading.units|
  {
    if reading.units == [] then s == reading.tail && Held(s)
    else
      var unit := reading.units[0];
      && unit.bytes != [] && unit.bytes <= s
      && (if unit.Good? then WellFormed(unit.bytes) else MaximalSubpart(s, |unit.bytes|))
      && Reads(s[|unit.bytes|..], reading.(units := reading.units[1..]))
  }

  lemma {:induction false} ScanReads(s: Bytes)
    ensures Reads(s, Scan(s))
    decreases |s|
  {
    hide WellFormed, Begins, MaximalSubpart, Truncated;
    if s != [] && !Look(s).Cut? {
      hide Look;
      var n := Look(s).width;
      ScanReads(s[n..]);
      var reading := Scan(s);
      assert reading.units[0].bytes == s[..n];
      assert reading.(units := reading.units[1..]) == Scan(s[n..]);
    }
  }

  /** Every byte is in exactly one unit, or in the tail, in the order it arrived. */
  lemma {:induction false} NoByteIsLost(s: Bytes)
    ensures Spread(Scan(s).units) + Scan(s).tail == s
    decreases |s|
  {
    hide Look, WellFormed, Begins, MaximalSubpart;
    if s != [] && !Look(s).Cut? {
      var n := Look(s).width;
      var rest := Scan(s[n..]);
      NoByteIsLost(s[n..]);
      assert Scan(s).units[1..] == rest.units;
      assert Spread(Scan(s).units) == s[..n] + Spread(rest.units);
      assert s == s[..n] + s[n..];
    }
  }

  /** One U+FFFD never stands for more than three bytes. */
  lemma {:induction false} ReplacedBytesAreFew(s: Bytes)
    ensures forall unit | unit in Scan(s).units :: unit.Bad? ==> 1 <= |unit.bytes| <= 3
    decreases |s|
  {
    hide WellFormed, Begins, MaximalSubpart;
    if s != [] && !Look(s).Cut? {
      ReplacedBytesAreFew(s[Look(s).width..]);
    }
  }

  /** There is one way to read a stream, and the decoder reads it that way. */
  lemma {:induction false} ReadingIsUnique(s: Bytes, reading: Scanned)
    requires Reads(s, reading)
    ensures reading == Scan(s)
    decreases |reading.units|
  {
    hide Look, WellFormed, Begins, MaximalSubpart, Held;
    if reading.units != [] {
      var unit := reading.units[0];
      var n := |unit.bytes|;
      assert unit.bytes == s[..n];
      if unit.Good? {
        LookAtWhole(s[..n]);
        LookIsLocal(s[..n], s[n..]);
        assert s[..n] + s[n..] == s;
      } else {
        MaximalSubpartIsLooked(s, n);
      }
      ReadingIsUnique(s[n..], reading.(units := reading.units[1..]));
      assert reading.units == [unit] + reading.units[1..];
    } else {
      NothingToScan(s);
    }
  }

  lemma NothingToScan(s: Bytes)
    requires Held(s)
    ensures Scan(s) == Scanned([], s)
  {
  }

  lemma MaximalSubpartIsLooked(s: Bytes, n: nat)
    requires MaximalSubpart(s, n)
    ensures Look(s) == Broken(n)
  {
    if Width(s[0]) != 0 {
      var k := Reach(s, 1);
      assert Begins(s[..1]);
    }
  }

  // ----- Nothing lost from text that was text -----

  predicate Clean(reading: Scanned) {
    reading.tail == [] && forall unit | unit in reading.units :: unit.Good?
  }

  /** Text that was encoded comes back as it was, with nothing pending. */
  lemma {:induction false} EncodedTextReads(text: string)
    ensures Clean(Scan(Encode(text)))
    ensures Shown(Encode(text)) == text
  {
    if text != "" {
      var first := EncodeChar(text[0]);
      var rest := Encode(text[1..]);
      EncodedCharDecodes(text[0]);
      LookAtWhole(first);
      LookIsLocal(first, rest);
      assert (first + rest)[..|first|] == first && (first + rest)[|first|..] == rest;
      EncodedTextReads(text[1..]);
    }
  }

  lemma {:induction false} EncodedTextIsUtf8(text: string)
    ensures FromUtf8(Encode(text)) == Ok(text)
  {
    if text != "" {
      hide WellFormed, EncodeChar, DecodeChar, Begins;
      var first := EncodeChar(text[0]);
      var rest := Encode(text[1..]);
      EncodedCharDecodes(text[0]);
      LookAtWhole(first);
      LookIsLocal(first, rest);
      assert (first + rest)[..|first|] == first && (first + rest)[|first|..] == rest;
      EncodedTextIsUtf8(text[1..]);
      assert text == [text[0]] + text[1..];
    }
  }

  /** A stream is reproduced byte for byte exactly when nothing in it was replaced or left over. */
  lemma {:induction false} LosslessExactlyWhenClean(s: Bytes)
    ensures Encode(Shown(s)) == s <==> Clean(Scan(s))
  {
    if Encode(Shown(s)) == s {
      EncodedTextReads(Shown(s));
    }
    if Clean(Scan(s)) { CleanTextEncodes(s); }
  }

  lemma {:induction false} CleanTextEncodes(s: Bytes)
    requires Clean(Scan(s))
    ensures Encode(Shown(s)) == s
    decreases |s|
  {
    hide Look, WellFormed, Begins, EncodeChar, DecodeChar, MaximalSubpart;
    if s != [] {
      var n := Look(s).width;
      var unit := Scan(s).units[0];
      assert unit in Scan(s).units;
      assert unit == Good(s[..n]);
      assert Scan(s).units[1..] == Scan(s[n..]).units;
      assert forall u | u in Scan(s[n..]).units :: u in Scan(s).units;
      CleanTextEncodes(s[n..]);
      DecodedCharEncodes(s[..n]);
      assert Shown(s) == [DecodeChar(s[..n])] + Shown(s[n..]);
      assert s[..n] + s[n..] == s;
    }
  }
}
