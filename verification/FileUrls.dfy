/** src/clipboard.rs: a copied file's URL, and the path it names. */
module FileUrls {
  import opened Bytes
  import opened Wrappers
  import Utf8

  const PERCENT: Byte := '%' as Byte

  function HexDigit(b: Byte): (r: Option<nat>)
    ensures r.Some? ==> r.value < 16 && b != PERCENT
  {
    if '0' as Byte <= b <= '9' as Byte then Some(b as int - '0' as int)
    else if 'a' as Byte <= b <= 'f' as Byte then Some(b as int - 'a' as int + 10)
    else if 'A' as Byte <= b <= 'F' as Byte then Some(b as int - 'A' as int + 10)
    else None
  }

  function HexPair(high: Byte, low: Byte): Option<Byte> {
    if HexDigit(high).Some? && HexDigit(low).Some? then Some((HexDigit(high).value * 16 + HexDigit(low).value) as Byte) else None
  }

  /** An escape at the front: a percent sign and two hexadecimal digits. */
  predicate Escapes(s: Bytes) {
    |s| > 2 && s[0] == PERCENT && HexPair(s[1], s[2]).Some?
  }

  function Unescaped(s: Bytes): Bytes {
    if s == [] then []
    else if Escapes(s) then [HexPair(s[1], s[2]).value] + Unescaped(s[3..])
    else [s[0]] + Unescaped(s[1..])
  }

  /** `String::from_utf8_lossy`: what the bytes show, and one more U+FFFD for a sequence cut short at the end. */
  function Lossy(s: Bytes): string {
    Utf8.Shown(s) + if Utf8.Scan(s).tail == [] then "" else "\U{FFFD}"
  }

  function PercentDecoded(text: string): string {
    Lossy(Unescaped(Utf8.Encode(text)))
  }

  lemma UnescapedAt(s: Bytes, i: nat)
    requires i < |s|
    ensures Escapes(s[i..]) <==> s[i] == PERCENT && i + 2 < |s| && HexPair(s[i + 1], s[i + 2]).Some?
    ensures Escapes(s[i..]) ==> Unescaped(s[i..]) == [HexPair(s[i + 1], s[i + 2]).value] + Unescaped(s[i + 3..])
    ensures !Escapes(s[i..]) ==> Unescaped(s[i..]) == [s[i]] + Unescaped(s[i + 1..])
  {
    hide HexPair;
    assert s[i..][1..] == s[i + 1..];
    if i + 2 < |s| { assert s[i..][3..] == s[i + 3..]; }
  }

  method Decode(text: string) returns (path: string)
    ensures path == PercentDecoded(text)
  {
    hide HexPair, Lossy, Escapes, Unescaped, Utf8.Encode;
    var bytes := Utf8.Encode(text);
    var out: Bytes := [];
    var i := 0;
    assert bytes[0..] == bytes;
    while i < |bytes|
      invariant i <= |bytes|
      invariant out + Unescaped(bytes[i..]) == Unescaped(bytes)
      decreases |bytes| - i
    {
      UnescapedAt(bytes, i);
      if bytes[i] == PERCENT && i + 2 < |bytes| {
        var byte := HexPair(bytes[i + 1], bytes[i + 2]);
        if byte.Some? {
          assert out + ([byte.value] + Unescaped(bytes[i + 3..])) == (out + [byte.value]) + Unescaped(bytes[i + 3..]);
          out := out + [byte.value];
          i := i + 3;
          continue;
        }
      }
      assert out + ([bytes[i]] + Unescaped(bytes[i + 1..])) == (out + [bytes[i]]) + Unescaped(bytes[i + 1..]);
      out := out + [bytes[i]];
      i := i + 1;
    }
    NothingUnescaped();
    assert bytes[i..] == [] && out + [] == out;
    path := Lossy(out);
  }

  lemma NothingUnescaped()
    ensures Unescaped([]) == []
  {
  }

  const SCHEME := "file://"

  const HERE := "localhost"

  function Without(prefix: string, s: string): Option<string> {
    if prefix <= s then Some(s[|prefix|..]) else None
  }

  /** The path a copied entry names: itself if it is no URL, and none if it is another machine's. */
  function Unfile(entry: string): Option<string> {
    match Without(SCHEME, entry)
    case None => Some(entry)
    case Some(rest) =>
      var path := match Without(HERE, rest) case Some(p) => p case None => rest;
      if path != "" && path[0] == '/' then Some(PercentDecoded(path)) else None
  }

  /** The sixteen digits, in either case, and no other byte. */
  lemma HexDigitsAre(v: nat, b: Byte)
    requires v < 16
    ensures HexDigit("0123456789abcdef"[v] as Byte) == Some(v) && HexDigit("0123456789ABCDEF"[v] as Byte) == Some(v)
    ensures HexDigit(b).Some? ==>
              var d := HexDigit(b).value; b == "0123456789abcdef"[d] as Byte || b == "0123456789ABCDEF"[d] as Byte
  {
  }

  /** What is no file's URL is left alone, and a URL of no absolute path, or of another machine's, names none. */
  lemma OthersAreNotPaths(entry: string, rest: string)
    ensures !(SCHEME <= entry) ==> Unfile(entry) == Some(entry)
    ensures (rest == "" || rest[0] != '/') && !(HERE + "/" <= rest) ==> Unfile(SCHEME + rest) == None
  {
    hide PercentDecoded;
    assert (SCHEME + rest)[|SCHEME|..] == rest;
    if HERE <= rest && rest != HERE {
      assert rest[..|HERE| + 1] == HERE + [rest[|HERE|]];
    }
  }

  // ----- Every spelling of a path is that path -----

  /** Bytes written as themselves, where they are not the percent sign, or as an escape in either case. */
  predicate Spells(t: Bytes, s: Bytes)
    decreases |t|
  {
    if s == [] then t == []
    else if t == [] then false
    else if t[0] == PERCENT then Escapes(t) && HexPair(t[1], t[2]).value == s[0] && Spells(t[3..], s[1..])
    else t[0] == s[0] && Spells(t[1..], s[1..])
  }

  lemma {:induction false} SpelledIsUnescaped(t: Bytes, s: Bytes)
    requires Spells(t, s)
    ensures Unescaped(t) == s
    decreases |t|
  {
    if s != [] {
      hide HexPair;
      SpelledIsUnescaped(if t[0] == PERCENT then t[3..] else t[1..], s[1..]);
      assert s == [s[0]] + s[1..];
    }
  }

  /** However a program escapes an absolute path, and with or without this machine's name, the path comes back. */
  lemma PathComesBack(path: string, spelled: string)
    requires spelled != "" && spelled[0] == '/' && Spells(Utf8.Encode(spelled), Utf8.Encode(path))
    ensures Unfile(SCHEME + spelled) == Some(path)
    ensures Unfile(SCHEME + HERE + spelled) == Some(path)
  {
    SpelledIsUnescaped(Utf8.Encode(spelled), Utf8.Encode(path));
    EncodedIsNotLossy(path);
    hide PercentDecoded;
    assert (SCHEME + spelled)[|SCHEME|..] == spelled;
    assert HERE[0] == 'l' && !(HERE <= spelled);
    assert SCHEME + HERE + spelled == SCHEME + (HERE + spelled);
    assert (SCHEME + (HERE + spelled))[|SCHEME|..] == HERE + spelled;
    assert (HERE + spelled)[|HERE|..] == spelled;
  }

  lemma EncodedIsNotLossy(text: string)
    ensures Lossy(Utf8.Encode(text)) == text
  {
    Utf8.EncodedTextReads(text);
  }

  /** And there always is a spelling: every byte escaped. */
  function AllEscaped(s: Bytes): Bytes {
    if s == [] then []
    else [PERCENT, DigitOf(s[0] as int / 16), DigitOf(s[0] as int % 16)] + AllEscaped(s[1..])
  }

  function DigitOf(n: nat): Byte
    requires n < 16
  {
    if n < 10 then (n + '0' as int) as Byte else (n - 10 + 'A' as int) as Byte
  }

  lemma {:induction false} AllEscapedSpells(s: Bytes)
    ensures Spells(AllEscaped(s), s)
  {
    if s != [] {
      AllEscapedSpells(s[1..]);
      var t := AllEscaped(s);
      assert t[3..] == AllEscaped(s[1..]);
      PairOfDigits(s[0]);
    }
  }

  lemma PairOfDigits(b: Byte)
    ensures HexPair(DigitOf(b as int / 16), DigitOf(b as int % 16)) == Some(b)
  {
  }

  /** Text is left alone exactly when nothing in it is an escape: a percent sign by itself stays one. */
  lemma {:induction false} LeftAloneWithoutEscapes(s: Bytes)
    ensures |Unescaped(s)| <= |s|
    ensures Unescaped(s) == s <==> forall i | 0 <= i < |s| :: !Escapes(s[i..])
    decreases |s|
  {
    if s != [] {
      hide HexPair;
      assert s[0..] == s;
      if Escapes(s) {
        LeftAloneWithoutEscapes(s[3..]);
      } else {
        LeftAloneWithoutEscapes(s[1..]);
        assert forall i | 1 <= i < |s| :: s[i..] == s[1..][i - 1..];
        assert s == [s[0]] + s[1..];
        if Unescaped(s) == s { assert Unescaped(s)[1..] == Unescaped(s[1..]); }
        if forall i | 0 <= i < |s[1..]| :: !Escapes(s[1..][i..]) {
          forall i | 0 <= i < |s| ensures !Escapes(s[i..]) {
            assert i > 0 ==> s[i..] == s[1..][i - 1..];
          }
        }
        if forall i | 0 <= i < |s| :: !Escapes(s[i..]) {
          forall i | 0 <= i < |s[1..]| ensures !Escapes(s[1..][i..]) {
            assert s[1..][i..] == s[i + 1..];
          }
        }
      }
    }
  }
}
