/** src/clipboard.rs: base64 for OSC 52, against a strict decoder of section 4 of RFC 4648. */
module Base64 {
  import opened Bytes
  import opened Wrappers

  type Sextet = v: nat | v < 64

  /** The alphabet: capitals, small letters, digits and two signs. */
  function Letter(v: Sextet): char {
    if v < 26 then 'A' + v as char
    else if v < 52 then 'a' + (v - 26) as char
    else if v < 62 then '0' + (v - 52) as char
    else if v == 62 then '+'
    else '/'
  }

  /** The value a letter stands for; the pad stands for none. */
  function ValueOf(c: char): (r: Option<Sextet>) {
    if 'A' <= c <= 'Z' then Some(c as int - 'A' as int)
    else if 'a' <= c <= 'z' then Some(c as int - 'a' as int + 26)
    else if '0' <= c <= '9' then Some(c as int - '0' as int + 52)
    else if c == '+' then Some(62)
    else if c == '/' then Some(63)
    else None
  }

  lemma LettersHaveValues(v: Sextet)
    ensures ValueOf(Letter(v)) == Some(v) && Letter(v) != '='
  {
  }

  lemma ValuesHaveLetters(c: char)
    ensures ValueOf(c).Some? ==> Letter(ValueOf(c).value) == c
    ensures ValueOf('=') == None
  {
  }

  const UPPER := "ABCDEFGHIJKLMNOPQRSTUVWXYZ"

  const LOWER := "abcdefghijklmnopqrstuvwxyz"

  const DIGITS := "0123456789"

  /** The sixty-four letters in order. */
  lemma LettersAre(v: Sextet)
    ensures Letter(v) == if v < 26 then UPPER[v] else if v < 52 then LOWER[v - 26] else if v < 62 then DIGITS[v - 52]
                         else if v == 62 then '+' else '/'
  {
    if v < 26 {
      LetterInOrder(UPPER, 'A', v);
    } else if v < 52 {
      LetterInOrder(LOWER, 'a', v - 26);
    } else if v < 62 {
      LetterInOrder(DIGITS, '0', v - 52);
    }
  }

  lemma LetterInOrder(letters: string, first: char, i: nat)
    requires i < |letters| && forall k | 0 <= k < |letters| :: letters[k] as int == first as int + k
    ensures first as int + i < 0xD800 ==> letters[i] == first + i as char
  {
  }

  // ----- Encoding -----

  /** The four sextets of three bytes. */
  function First(a: Byte): Sextet { a as int / 4 }

  function Second(a: Byte, b: Byte): Sextet { a as int % 4 * 16 + b as int / 16 }

  function Third(b: Byte, c: Byte): Sextet { b as int % 16 * 4 + c as int / 64 }

  function Fourth(c: Byte): Sextet { c as int % 64 }

  function Block(a: Byte, b: Byte, c: Byte): string {
    [Letter(First(a)), Letter(Second(a, b)), Letter(Third(b, c)), Letter(Fourth(c))]
  }

  function Encode(s: Bytes): string {
    if |s| == 0 then ""
    else if |s| == 1 then [Letter(First(s[0])), Letter(Second(s[0], 0)), '=', '=']
    else if |s| == 2 then [Letter(First(s[0])), Letter(Second(s[0], s[1])), Letter(Third(s[1], 0)), '=']
    else Block(s[0], s[1], s[2]) + Encode(s[3..])
  }

  function Power64(k: nat): (r: nat)
    ensures r > 0
  {
    if k == 0 then 1 else 64 * Power64(k - 1)
  }

  /** One of the four, cut out of the three bytes read as one number from the top. */
  function SextetAt(bits: nat, i: nat): Sextet
    requires i < 4
  {
    bits / Power64(3 - i) % 64
  }

  /** Three bytes as one number, the first at the top. */
  function Bits(a: Byte, b: Byte, c: Byte): nat {
    a as int * 65536 + b as int * 256 + c as int
  }

  /** The letter at a place, or the pad for a byte that was not there. */
  function LetterAt(bits: nat, i: nat, length: nat): char
    requires i < 4
  {
    if i > length then '=' else Letter(SextetAt(bits, i))
  }

  lemma SextetsOf(a: Byte, b: Byte, c: Byte)
    ensures var bits := Bits(a, b, c);
            && SextetAt(bits, 0) == First(a) && SextetAt(bits, 1) == Second(a, b)
            && SextetAt(bits, 2) == Third(b, c) && SextetAt(bits, 3) == Fourth(c)
  {
    hide First, Second, Third, Fourth, Bits;
    assert Power64(0) == 1 && Power64(1) == 64 && Power64(2) == 4096 && Power64(3) == 262144;
    BitsInFours(a, b, c);
    FourSextets(First(a), Second(a, b), Third(b, c), Fourth(c));
  }

  lemma BitsInFours(a: Byte, b: Byte, c: Byte)
    ensures Bits(a, b, c) == First(a) * 262144 + Second(a, b) * 4096 + Third(b, c) * 64 + Fourth(c)
  {
    InFours(a as int, b as int, c as int);
  }

  lemma InFours(a: int, b: int, c: int)
    ensures a * 65536 + b * 256 + c == a / 4 * 262144 + (a % 4 * 16 + b / 16) * 4096 + (b % 16 * 4 + c / 64) * 64 + c % 64
  {
    assert a == a / 4 * 4 + a % 4;
    assert b == b / 16 * 16 + b % 16;
    assert c == c / 64 * 64 + c % 64;
  }

  lemma FourSextets(p: Sextet, q: Sextet, r: Sextet, s: Sextet)
    ensures var bits := p * 262144 + q * 4096 + r * 64 + s;
            bits / 262144 % 64 == p && bits / 4096 % 64 == q && bits / 64 % 64 == r && bits % 64 == s && bits / 1 == bits
  {
    var bits := p * 262144 + q * 4096 + r * 64 + s;
    assert bits / 262144 == p;
    assert bits / 4096 == p * 64 + q;
    assert bits / 64 == (p * 64 + q) * 64 + r;
  }

  method ToBase64(bytes: Bytes) returns (out: string)
    ensures out == Encode(bytes)
  {
    hide Letter, Encode, SextetAt, First, Second, Third, Fourth, Bits;
    out := "";
    var at := 0;
    while at < |bytes|
      invariant at <= |bytes|
      invariant out + Encode(bytes[at..]) == Encode(bytes)
      decreases |bytes| - at
    {
      ghost var rest := bytes[at..];
      var chunk := bytes[at..if at + 3 < |bytes| then at + 3 else |bytes|];
      assert |chunk| == (if |rest| < 3 then |rest| else 3) && forall k | 0 <= k < |chunk| :: chunk[k] == rest[k];
      var block: Bytes := [chunk[0], if |chunk| > 1 then chunk[1] else 0, if |chunk| > 2 then chunk[2] else 0];
      var bits := Bits(block[0], block[1], block[2]);
      ghost var before, letters := out, "";
      for i := 0 to 4
        invariant out == before + letters && |letters| == i
        invariant forall k | 0 <= k < i :: letters[k] == LetterAt(bits, k, |chunk|)
      {
        letters := letters + [LetterAt(bits, i, |chunk|)];
        if i > |chunk| {
          out := out + "=";
          continue;
        }
        out := out + [Letter(SextetAt(bits, i))];
      }
      SextetsOf(block[0], block[1], block[2]);
      OneChunk(rest, letters);
      assert rest[|chunk|..] == bytes[at + |chunk|..];
      assert before + (letters + Encode(rest[|chunk|..])) == out + Encode(rest[|chunk|..]);
      at := at + |chunk|;
    }
    assert bytes[at..] == [];
    NothingEncoded();
  }

  lemma NothingEncoded()
    ensures Encode([]) == ""
  {
  }

  lemma EncodedInParts(s: Bytes)
    ensures |s| == 0 ==> Encode(s) == ""
    ensures |s| == 1 ==> Encode(s) == [Letter(First(s[0])), Letter(Second(s[0], 0)), '=', '=']
    ensures |s| == 2 ==> Encode(s) == [Letter(First(s[0])), Letter(Second(s[0], s[1])), Letter(Third(s[1], 0)), '=']
    ensures |s| >= 3 ==>
              Encode(s) == [Letter(First(s[0])), Letter(Second(s[0], s[1])), Letter(Third(s[1], s[2])), Letter(Fourth(s[2]))]
                         + Encode(s[3..])
  {
  }

  /** The letters of the first three bytes, or of the fewer there are. */
  lemma OneChunk(s: Bytes, letters: string)
    requires s == [] ==> letters == ""
    requires s != [] ==>
               var a, b, c := s[0], if |s| > 1 then s[1] else 0, if |s| > 2 then s[2] else 0;
               && |letters| == 4 && letters[0] == Letter(First(a)) && letters[1] == Letter(Second(a, b))
               && letters[2] == (if |s| > 1 then Letter(Third(b, c)) else '=')
               && letters[3] == (if |s| > 2 then Letter(Fourth(c)) else '=')
    ensures Encode(s) == letters + Encode(s[if |s| < 3 then |s| else 3..])
  {
    hide *;
    EncodedInParts(s);
    if |s| >= 1 { assert letters == [letters[0], letters[1], letters[2], letters[3]]; }
    if |s| < 3 {
      NothingEncoded();
      assert s[|s|..] == [];
    }
  }

  // ----- Decoding -----

  /** Three bytes of four sextets. */
  function Bytes3(a: Sextet, b: Sextet, c: Sextet, d: Sextet): (s: Bytes)
    ensures |s| == 3
  {
    [(a * 4 + b / 16) as Byte, (b % 16 * 16 + c / 4) as Byte, (c % 4 * 64 + d) as Byte]
  }

  /** Strictly: whole groups of four, pads only where the bytes ran out, and the bits they cut off zero. */
  function Decode(t: string): Option<Bytes>
    decreases |t|
  {
    if t == "" then Some([])
    else if |t| < 4 || ValueOf(t[0]).None? || ValueOf(t[1]).None? then None
    else
      var a, b := ValueOf(t[0]).value, ValueOf(t[1]).value;
      if |t| == 4 && t[2] == '=' && t[3] == '=' then
        if b % 16 == 0 then Some(Bytes3(a, b, 0, 0)[..1]) else None
      else if ValueOf(t[2]).None? then None
      else
        var c := ValueOf(t[2]).value;
        if |t| == 4 && t[3] == '=' then
          if c % 4 == 0 then Some(Bytes3(a, b, c, 0)[..2]) else None
        else if ValueOf(t[3]).None? || Decode(t[4..]).None? then None
        else Some(Bytes3(a, b, c, ValueOf(t[3]).value) + Decode(t[4..]).value)
  }

  lemma SextetsThereAndBack(a: Byte, b: Byte, c: Byte)
    ensures Bytes3(First(a), Second(a, b), Third(b, c), Fourth(c)) == [a, b, c]
    ensures Second(a, 0) % 16 == 0 && Third(b, 0) % 4 == 0 && Third(0, 0) == 0 && Fourth(0) == 0
  {
    assert Second(a, b) / 16 == a as int % 4 && Second(a, b) % 16 == b as int / 16;
    assert Third(b, c) / 4 == b as int % 16 && Third(b, c) % 4 == c as int / 64;
  }

  lemma BytesThereAndBack(a: Sextet, b: Sextet, c: Sextet, d: Sextet)
    ensures var s := Bytes3(a, b, c, d);
            First(s[0]) == a && Second(s[0], s[1]) == b && Third(s[1], s[2]) == c && Fourth(s[2]) == d
    ensures b % 16 == 0 && c == 0 ==> Bytes3(a, b, c, d)[1] == 0
    ensures c % 4 == 0 && d == 0 ==> Bytes3(a, b, c, d)[2] == 0
  {
  }

  lemma DecodesFour(a: Sextet, b: Sextet, c: Sextet, d: Sextet, rest: string)
    ensures var t := [Letter(a), Letter(b), Letter(c), Letter(d)] + rest;
            Decode(t) == match Decode(rest) case Some(s) => Some(Bytes3(a, b, c, d) + s) case None => None
  {
    hide Letter, ValueOf, Bytes3;
    LettersHaveValues(a);
    LettersHaveValues(b);
    LettersHaveValues(c);
    LettersHaveValues(d);
    assert ([Letter(a), Letter(b), Letter(c), Letter(d)] + rest)[4..] == rest;
  }

  lemma DecodesPadded(a: Sextet, b: Sextet, c: Sextet)
    ensures Decode([Letter(a), Letter(b), '=', '=']) == if b % 16 == 0 then Some(Bytes3(a, b, 0, 0)[..1]) else None
    ensures Decode([Letter(a), Letter(b), Letter(c), '=']) == if c % 4 == 0 then Some(Bytes3(a, b, c, 0)[..2]) else None
  {
    hide Letter, ValueOf, Bytes3;
    LettersHaveValues(a);
    LettersHaveValues(b);
    LettersHaveValues(c);
  }

  lemma EncodesThree(a: Sextet, b: Sextet, c: Sextet, d: Sextet, rest: Bytes)
    ensures Encode(Bytes3(a, b, c, d) + rest) == [Letter(a), Letter(b), Letter(c), Letter(d)] + Encode(rest)
  {
    hide Letter, First, Second, Third, Fourth, Bytes3;
    BytesThereAndBack(a, b, c, d);
    assert (Bytes3(a, b, c, d) + rest)[3..] == rest;
  }

  lemma EncodesFewer(a: Sextet, b: Sextet, c: Sextet)
    ensures b % 16 == 0 ==> Encode(Bytes3(a, b, 0, 0)[..1]) == [Letter(a), Letter(b), '=', '=']
    ensures c % 4 == 0 ==> Encode(Bytes3(a, b, c, 0)[..2]) == [Letter(a), Letter(b), Letter(c), '=']
  {
    hide Letter, First, Second, Third, Fourth, Bytes3;
    BytesThereAndBack(a, b, 0, 0);
    BytesThereAndBack(a, b, c, 0);
  }

  lemma BlockDecodes(s: Bytes)
    requires |s| >= 3 && Decode(Encode(s[3..])) == Some(s[3..])
    ensures Decode(Encode(s)) == Some(s)
  {
    hide Encode, Decode, Letter, First, Second, Third, Fourth, Bytes3;
    EncodedInParts(s);
    SextetsThereAndBack(s[0], s[1], s[2]);
    DecodesFour(First(s[0]), Second(s[0], s[1]), Third(s[1], s[2]), Fourth(s[2]), Encode(s[3..]));
    assert s == [s[0], s[1], s[2]] + s[3..];
  }

  lemma LastBytesDecode(s: Bytes)
    requires 0 < |s| < 3
    ensures Decode(Encode(s)) == Some(s)
  {
    hide Encode, Decode, Letter, First, Second, Third, Fourth, Bytes3;
    var b := if |s| > 1 then s[1] else 0;
    EncodedInParts(s);
    SextetsThereAndBack(s[0], b, 0);
    SextetsThereAndBack(s[0], 0, 0);
    DecodesPadded(First(s[0]), Second(s[0], b), Third(b, 0));
    assert s == [s[0], b, 0][..|s|];
  }

  /** Whatever is encoded is decoded to itself. */
  lemma {:induction false} EncodedDecodes(s: Bytes)
    ensures Decode(Encode(s)) == Some(s)
    decreases |s|
  {
    if |s| >= 3 {
      EncodedDecodes(s[3..]);
      BlockDecodes(s);
    } else if s != [] {
      LastBytesDecode(s);
    }
  }

  /** And nothing decodes but what is an encoding: no two texts are the same bytes. */
  lemma {:induction false} DecodedEncodes(t: string)
    ensures Decode(t).Some? ==> Encode(Decode(t).value) == t
    decreases |t|
  {
    if Decode(t).Some? && t != "" {
      hide Encode, Letter, ValueOf, Bytes3;
      var a, b := ValueOf(t[0]).value, ValueOf(t[1]).value;
      ValuesHaveLetters(t[0]);
      ValuesHaveLetters(t[1]);
      ValuesHaveLetters(t[2]);
      ValuesHaveLetters(t[3]);
      assert t == [t[0], t[1], t[2], t[3]] + t[4..];
      if |t| == 4 && t[3] == '=' {
        EncodesFewer(a, b, if t[2] == '=' then 0 else ValueOf(t[2]).value);
        assert t[4..] == "";
      } else {
        DecodedEncodes(t[4..]);
        EncodesThree(a, b, ValueOf(t[2]).value, ValueOf(t[3]).value, Decode(t[4..]).value);
      }
    }
  }

  /** The one text that decodes to some bytes is their encoding. */
  lemma Base64IsExact(s: Bytes, t: string)
    ensures Decode(t) == Some(s) <==> t == Encode(s)
  {
    EncodedDecodes(s);
    DecodedEncodes(t);
  }

  /** Four letters for every three bytes begun, pads for those that are not there, and no pad anywhere else. */
  lemma {:induction false} EncodedShape(s: Bytes)
    ensures |Encode(s)| == (|s| + 2) / 3 * 4
    ensures forall i | 0 <= i < |Encode(s)| :: Encode(s)[i] == '=' <==> i >= |Encode(s)| - (3 - |s| % 3) % 3
    decreases |s|
  {
    if |s| < 3 {
      ShapeOfFew(s);
    } else {
      EncodedShape(s[3..]);
      BlockHasNoPad(s[0], s[1], s[2]);
      hide *;
      EncodedInParts(s);
      BlockIs(s[0], s[1], s[2]);
      ShapeOfMore(Block(s[0], s[1], s[2]), Encode(s[3..]), |s| - 3);
    }
  }

  lemma ShapeOfFew(s: Bytes)
    requires |s| < 3
    ensures |Encode(s)| == (|s| + 2) / 3 * 4
    ensures forall i | 0 <= i < |Encode(s)| :: Encode(s)[i] == '=' <==> i >= |Encode(s)| - (3 - |s| % 3) % 3
  {
    hide Letter, First, Second, Third, Fourth, Encode;
    EncodedInParts(s);
    if s != [] {
      var b := if |s| > 1 then s[1] else 0;
      LettersHaveValues(First(s[0]));
      LettersHaveValues(Second(s[0], b));
      LettersHaveValues(Third(b, 0));
    }
  }

  lemma BlockIs(a: Byte, b: Byte, c: Byte)
    ensures Block(a, b, c) == [Letter(First(a)), Letter(Second(a, b)), Letter(Third(b, c)), Letter(Fourth(c))]
  {
  }

  /** A block without pads in front of a text that ends as it should. */
  lemma ShapeOfMore(block: string, rest: string, n: nat)
    requires |block| == 4 && '=' !in block && |rest| == (n + 2) / 3 * 4
    requires forall i | 0 <= i < |rest| :: rest[i] == '=' <==> i >= |rest| - (3 - n % 3) % 3
    ensures |block + rest| == (n + 3 + 2) / 3 * 4
    ensures forall i | 0 <= i < |block + rest| ::
              (block + rest)[i] == '=' <==> i >= |block + rest| - (3 - (n + 3) % 3) % 3
  {
    assert (n + 3) % 3 == n % 3;
    assert n % 3 != 0 ==> |rest| >= 4;
    forall i | 0 <= i < |block + rest|
      ensures (block + rest)[i] == '=' <==> i >= |block + rest| - (3 - (n + 3) % 3) % 3
    {
      if i < 4 {
        assert (block + rest)[i] == block[i] && block[i] in block;
      } else {
        assert (block + rest)[i] == rest[i - 4];
      }
    }
  }

  lemma BlockHasNoPad(a: Byte, b: Byte, c: Byte)
    ensures |Block(a, b, c)| == 4 && '=' !in Block(a, b, c)
  {
    LettersHaveValues(First(a));
    LettersHaveValues(Second(a, b));
    LettersHaveValues(Third(b, c));
    LettersHaveValues(Fourth(c));
  }
}
