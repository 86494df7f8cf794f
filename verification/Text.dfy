/** What the models need of the standard library's strings: splitting, numbers, trimming and order. */
module Text {
  import opened Wrappers

  // ----- Splitting -----

  /** `str::split` on one character: always at least one piece. */
  function Split(s: string, sep: char): (pieces: seq<string>)
    ensures |pieces| >= 1
  {
    if s == "" then [""]
    else
      var rest := Split(s[1..], sep);
      if s[0] == sep then [""] + rest else [[s[0]] + rest[0]] + rest[1..]
  }

  lemma {:induction false} SplitAtSeparator(front: string, sep: char, back: string)
    requires sep !in front
    ensures Split(front + [sep] + back, sep) == [front] + Split(back, sep)
  {
    var s := front + [sep] + back;
    if front == "" {
      assert s[1..] == back;
    } else {
      assert s[1..] == front[1..] + [sep] + back;
      SplitAtSeparator(front[1..], sep, back);
      assert front == [front[0]] + front[1..];
    }
  }

  lemma {:induction false} SplitWithoutSeparator(s: string, sep: char)
    requires sep !in s
    ensures Split(s, sep) == [s]
  {
    if s != "" {
      SplitWithoutSeparator(s[1..], sep);
      assert s == [s[0]] + s[1..];
    }
  }

  // ----- Numbers -----

  predicate IsDigit(c: char) {
    '0' <= c <= '9'
  }

  function Decimal(n: nat): (s: string)
    ensures s != "" && forall c | c in s :: IsDigit(c)
  {
    var last := ['0' + (n % 10) as char];
    if n < 10 then last else Decimal(n / 10) + last
  }

  /** The number some digits spell after others that spelled `so`, or nothing if one is no digit. */
  function Value(s: string, so: nat): Option<nat> {
    if s == "" then Some(so)
    else if !IsDigit(s[0]) then None
    else Value(s[1..], so * 10 + (s[0] as int - '0' as int))
  }

  /** `str::parse::<u16>`: an optional plus, then digits, and no more than fits. */
  function ParseU16(s: string): (r: Option<nat>)
    ensures r.Some? ==> r.value < 0x1_0000
  {
    var digits := if s != "" && s[0] == '+' then s[1..] else s;
    if digits == "" then None
    else
      match Value(digits, 0)
      case Some(n) => if n < 0x1_0000 then Some(n) else None
      case None => None
  }

  lemma {:induction false} ValueOfConcat(a: string, b: string, so: nat)
    ensures Value(a + b, so) == match Value(a, so) case Some(n) => Value(b, n) case None => None
  {
    if a == "" {
      assert a + b == b;
    } else {
      assert (a + b)[1..] == a[1..] + b;
      if IsDigit(a[0]) { ValueOfConcat(a[1..], b, so * 10 + (a[0] as int - '0' as int)); }
    }
  }

  lemma {:induction false} ValueOfDecimal(n: nat)
    ensures Value(Decimal(n), 0) == Some(n)
  {
    var last := ['0' + (n % 10) as char];
    assert forall so: nat :: Value(last, so) == Value("", so * 10 + n % 10);
    if n >= 10 {
      ValueOfDecimal(n / 10);
      ValueOfConcat(Decimal(n / 10), last, 0);
    }
  }

  lemma ParseOfDecimal(n: nat)
    requires n < 0x1_0000
    ensures ParseU16(Decimal(n)) == Some(n)
  {
    ValueOfDecimal(n);
    assert Decimal(n)[0] in Decimal(n);
  }

  function Zeros(k: nat): string {
    if k == 0 then "" else "0" + Zeros(k - 1)
  }

  lemma {:induction false} ValueOfZeros(k: nat, s: string)
    ensures Value(Zeros(k) + s, 0) == Value(s, 0)
    decreases k
  {
    if k == 0 {
      assert Zeros(0) + s == s;
    } else {
      assert (Zeros(k) + s)[1..] == Zeros(k - 1) + s;
      ValueOfZeros(k - 1, s);
    }
  }

  lemma {:induction false} ZerosAtEnd(k: nat)
    ensures Zeros(k) + "0" == Zeros(k + 1)
  {
    if k > 0 { ZerosAtEnd(k - 1); }
  }

  /** Digits that spell a number are its own, after some noughts. */
  lemma {:induction false} ValueIsDecimal(s: string) returns (k: nat)
    requires s != "" && Value(s, 0).Some?
    ensures s == Zeros(k) + Decimal(Value(s, 0).value)
    decreases |s|
  {
    var front, last := s[..|s| - 1], s[|s| - 1];
    assert s == front + [last];
    ValueOfConcat(front, [last], 0);
    var m := Value(front, 0).value;
    assert [last][1..] == "";
    assert IsDigit(last) && Value(s, 0) == Some(m * 10 + (last as int - '0' as int));
    if front == "" {
      k := 0;
      assert Zeros(0) + Decimal(last as int - '0' as int) == s;
    } else {
      k := ValueIsDecimal(front);
      LastDigit(m, last);
      if m == 0 {
        ZerosAtEnd(k);
        assert s == Zeros(k + 1) + [last];
        k := k + 1;
      } else {
        assert s == Zeros(k) + (Decimal(m) + [last]);
      }
    }
  }

  lemma LastDigit(m: nat, last: char)
    requires IsDigit(last)
    ensures var n := m * 10 + (last as int - '0' as int);
            Decimal(n) == if m == 0 then [last] else Decimal(m) + [last]
  {
    var n := m * 10 + (last as int - '0' as int);
    assert n / 10 == m && n % 10 == last as int - '0' as int;
  }

  /** A text is read as a number exactly when it is that number's digits, a plus and noughts before them or not. */
  lemma ParsesExactly(s: string, n: nat)
    ensures ParseU16(s) == Some(n) <==>
            n < 0x1_0000 && exists k :: s == Zeros(k) + Decimal(n) || s == "+" + (Zeros(k) + Decimal(n))
  {
    hide Decimal;
    if ParseU16(s) == Some(n) {
      var k := ValueIsDecimal(if s[0] == '+' then s[1..] else s);
    }
    if k :| n < 0x1_0000 && (s == Zeros(k) + Decimal(n) || s == "+" + (Zeros(k) + Decimal(n))) {
      var digits := Zeros(k) + Decimal(n);
      ValueOfZeros(k, Decimal(n));
      ValueOfDecimal(n);
      assert digits[0] != '+' by { FirstIsDigit(k, n); }
      assert s == "+" + digits ==> s[1..] == digits;
    }
  }

  lemma FirstIsDigit(k: nat, n: nat)
    ensures IsDigit((Zeros(k) + Decimal(n))[0])
  {
    if k == 0 {
      assert Zeros(0) + Decimal(n) == Decimal(n);
      assert Decimal(n)[0] in Decimal(n);
    }
  }

  // ----- Trimming -----

  /** Unicode's White_Space. */
  predicate IsWhite(c: char) {
    || '\t' <= c <= '\r' || c == ' ' || c == '\U{0085}' || c == '\U{00A0}' || c == '\U{1680}'
    || '\U{2000}' <= c <= '\U{200A}' || c == '\U{2028}' || c == '\U{2029}' || c == '\U{202F}'
    || c == '\U{205F}' || c == '\U{3000}'
  }

  function TrimStart(s: string): (t: string)
    ensures t == "" || !IsWhite(t[0])
    ensures |t| <= |s|
  {
    if s != "" && IsWhite(s[0]) then TrimStart(s[1..]) else s
  }

  function TrimEnd(s: string): (t: string)
    ensures t == "" || !IsWhite(t[|t| - 1])
    ensures |t| <= |s| && t == s[..|t|]
  {
    if s != "" && IsWhite(s[|s| - 1]) then TrimEnd(s[..|s| - 1]) else s
  }

  predicate Trimmed(s: string) {
    s == "" || (!IsWhite(s[0]) && !IsWhite(s[|s| - 1]))
  }

  function Trim(s: string): (t: string)
    ensures Trimmed(t)
    ensures Trimmed(s) ==> t == s
  {
    TrimEnd(TrimStart(s))
  }

  /** Trimming takes away white space and nothing else. */
  lemma {:induction false} TrimStartKeeps(s: string, c: char)
    requires !IsWhite(c)
    ensures c in TrimStart(s) <==> c in s
  {
    if s != "" && IsWhite(s[0]) {
      TrimStartKeeps(s[1..], c);
      assert s == [s[0]] + s[1..];
    }
  }

  lemma {:induction false} TrimEndKeeps(s: string, c: char)
    requires !IsWhite(c)
    ensures c in TrimEnd(s) <==> c in s
    decreases |s|
  {
    if s != "" && IsWhite(s[|s| - 1]) {
      TrimEndKeeps(s[..|s| - 1], c);
      assert s == s[..|s| - 1] + [s[|s| - 1]];
    }
  }

  lemma TrimKeeps(s: string, c: char)
    requires !IsWhite(c)
    ensures c in Trim(s) <==> c in s
  {
    TrimStartKeeps(s, c);
    TrimEndKeeps(TrimStart(s), c);
  }

  /** Whether some text begins with a character, once the white space before it is gone. */
  predicate Leads(c: char, s: string) {
    TrimStart(s) != "" && TrimStart(s)[0] == c
  }

  /** White space at the end has no part in that. */
  lemma {:induction false} TrimEndLeads(c: char, s: string)
    requires !IsWhite(c)
    ensures Leads(c, TrimEnd(s)) <==> Leads(c, s)
    decreases |s|
  {
    if s != "" && IsWhite(s[|s| - 1]) {
      TrimEndLeads(c, s[..|s| - 1]);
      LeadsInFront(c, s);
    }
  }

  lemma {:induction false} LeadsInFront(c: char, s: string)
    requires !IsWhite(c) && s != "" && IsWhite(s[|s| - 1])
    ensures Leads(c, s[..|s| - 1]) <==> Leads(c, s)
  {
    if IsWhite(s[0]) && |s| > 1 {
      LeadsInFront(c, s[1..]);
      assert s[..|s| - 1][1..] == s[1..][..|s| - 2];
    }
  }

  // ----- Order -----

  /** The order of strings by their characters, which for UTF-8 is the order by their bytes. */
  predicate AtMost(a: string, b: string) {
    a == "" || (b != "" && (a[0] < b[0] || (a[0] == b[0] && AtMost(a[1..], b[1..]))))
  }

  lemma {:induction false} AtMostIsTotal(a: string, b: string)
    ensures AtMost(a, b) || AtMost(b, a)
    ensures AtMost(a, b) && AtMost(b, a) ==> a == b
    ensures AtMost(a, a)
  {
    if a != "" { AtMostIsTotal(a[1..], a[1..]); }
    if a != "" && b != "" {
      AtMostIsTotal(a[1..], b[1..]);
      if a[0] == b[0] && a[1..] == b[1..] {
        assert a == [a[0]] + a[1..] && b == [b[0]] + b[1..];
      }
    }
  }

  lemma {:induction false} AtMostIsTransitive(a: string, b: string, c: string)
    requires AtMost(a, b) && AtMost(b, c)
    ensures AtMost(a, c)
  {
    if a != "" && a[0] == b[0] == c[0] { AtMostIsTransitive(a[1..], b[1..], c[1..]); }
  }
}
