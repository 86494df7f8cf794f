/** src/shell.rs: one line a POSIX shell reads back as the words it was made of. */
module Shell {
  import opened Wrappers

  // ----- Writing -----

  /** `str::replace` of one character. */
  function Replace(s: string, c: char, with: string): string {
    if s == "" then "" else (if s[0] == c then with else [s[0]]) + Replace(s[1..], c, with)
  }

  predicate Safe(c: char) {
    'a' <= c <= 'z' || 'A' <= c <= 'Z' || '0' <= c <= '9' || c in "-_./:=@,+"
  }

  function Quote(arg: string): string {
    if arg != "" && forall i | 0 <= i < |arg| :: Safe(arg[i]) then arg
    else "'" + Replace(arg, '\'', "'\\''") + "'"
  }

  function Join(argv: seq<string>): string {
    if argv == [] then ""
    else if |argv| == 1 then Quote(argv[0])
    else Quote(argv[0]) + " " + Join(argv[1..])
  }

  // ----- Reading -----

  function IndexOf(s: string, c: char): (r: Option<nat>)
    ensures r.Some? ==> r.value < |s| && s[r.value] == c && c !in s[..r.value]
    ensures r.None? ==> c !in s
  {
    if s == "" then None
    else if s[0] == c then Some(0)
    else
      match IndexOf(s[1..], c)
      case Some(i) => assert s[..i + 1] == [s[0]] + s[1..][..i]; Some(i + 1)
      case None => None
  }

  /** A character that outside quotes is not itself: an operator, the start of an expansion, or a pattern. */
  predicate Special(c: char) {
    c in "&|;<>()\n$`*?["
  }

  /** One that is not itself at the start of a word: a comment, or somebody's home. */
  predicate SpecialFirst(c: char) {
    c == '#' || c == '~'
  }

  /**
    Inside double quotes, up to the closing one: the text, and what comes after; or
    nothing if it holds an expansion.
   */
  function InDouble(s: string, so: string): Option<(string, string)>
    decreases |s|
  {
    if s == "" then None
    else if s[0] == '"' then Some((so, s[1..]))
    else if s[0] == '$' || s[0] == '`' then None
    else if s[0] == '\\' && |s| > 1 && s[1] in "$`\"\\" then InDouble(s[2..], so + [s[1]])
    else if s[0] == '\\' && |s| > 1 && s[1] == '\n' then InDouble(s[2..], so)
    else InDouble(s[1..], so + [s[0]])
  }

  lemma {:induction false} InDoubleIsShorter(s: string, so: string)
    ensures InDouble(s, so).Some? ==> |InDouble(s, so).value.1| < |s|
    decreases |s|
  {
    if s != "" {
      if |s| > 1 {
        InDoubleIsShorter(s[2..], so + [s[1]]);
        InDoubleIsShorter(s[2..], so);
      }
      InDoubleIsShorter(s[1..], so + [s[0]]);
    }
  }

  function Grown(word: Option<string>, text: string): Option<string> {
    Some(if word.Some? then word.value + text else text)
  }

  /** Words out of some text, given the word already begun: token recognition and quote removal together. */
  function WordsFrom(s: string, word: Option<string>): Option<seq<string>>
    decreases |s|
  {
    if s == "" then Some(if word.Some? then [word.value] else [])
    else if s[0] == ' ' || s[0] == '\t' then
      match WordsFrom(s[1..], None)
      case Some(rest) => Some((if word.Some? then [word.value] else []) + rest)
      case None => None
    else if s[0] == '\'' then
      match IndexOf(s[1..], '\'')
      case Some(i) => WordsFrom(s[i + 2..], Grown(word, s[1..i + 1]))
      case None => None
    else if s[0] == '"' then
      InDoubleIsShorter(s[1..], "");
      match InDouble(s[1..], "")
      case Some(inside) => WordsFrom(inside.1, Grown(word, inside.0))
      case None => None
    else if s[0] == '\\' then
      if |s| == 1 then None
      else if s[1] == '\n' then WordsFrom(s[2..], word)
      else WordsFrom(s[2..], Grown(word, [s[1]]))
    else if Special(s[0]) || (word.None? && SpecialFirst(s[0])) then None
    else WordsFrom(s[1..], Grown(word, [s[0]]))
  }

  /** The words a POSIX shell takes a line for, where every one of them is literal; a NUL never reaches a shell. */
  function Words(s: string): Option<seq<string>> {
    if '\0' in s then None else WordsFrom(s, None)
  }

  // ----- What is quoted -----

  const LOWER := "abcdefghijklmnopqrstuvwxyz"

  const UPPER := "ABCDEFGHIJKLMNOPQRSTUVWXYZ"

  const DIGITS := "0123456789"

  /** A word goes as it is exactly when it is one and every letter of it means itself to every shell. */
  lemma QuotedExactlyWhen(arg: string)
    ensures Quote(arg) == arg <==>
            arg != "" && forall c | c in arg :: c in LOWER || c in UPPER || c in DIGITS || c in "-_./:=@,+"
  {
    hide Replace, Safe;
    forall c ensures Safe(c) <==> c in LOWER || c in UPPER || c in DIGITS || c in "-_./:=@,+" {
      SafeLetters(c);
    }
    if arg != "" && forall i | 0 <= i < |arg| :: Safe(arg[i]) {
      forall c | c in arg ensures Safe(c) {}
    } else {
      ReplaceIsNoShorter(arg, '\'', "'\\''");
    }
  }

  lemma SafeLetters(c: char)
    ensures Safe(c) <==> c in LOWER || c in UPPER || c in DIGITS || c in "-_./:=@,+"
  {
    LettersInOrder(LOWER, 'a', c);
    LettersInOrder(UPPER, 'A', c);
    LettersInOrder(DIGITS, '0', c);
  }

  /** Letters written out in order are those between the first and the last. */
  lemma LettersInOrder(letters: string, first: char, c: char)
    requires forall i | 0 <= i < |letters| :: letters[i] as int == first as int + i
    ensures c in letters <==> first as int <= c as int < first as int + |letters|
  {
    if first as int <= c as int < first as int + |letters| { assert letters[c as int - first as int] == c; }
  }

  lemma {:induction false} ReplaceIsNoShorter(s: string, c: char, with: string)
    requires with != ""
    ensures |Replace(s, c, with)| >= |s|
  {
    if s != "" { ReplaceIsNoShorter(s[1..], c, with); }
  }

  // ----- There and back -----

  lemma SafeIsNotSpecial(c: char)
    requires Safe(c)
    ensures !Special(c) && !SpecialFirst(c)
    ensures c != ' ' && c != '\t' && c != '\'' && c != '"' && c != '\\'
  {
  }

  lemma SafeIsPlain(c: char, rest: string, word: Option<string>)
    requires Safe(c)
    ensures WordsFrom([c] + rest, word) == WordsFrom(rest, Grown(word, [c]))
  {
    SafeIsNotSpecial(c);
    hide Safe, Special, SpecialFirst, InDouble, IndexOf;
    var s := [c] + rest;
    assert s[0] == c && s[1..] == rest;
  }

  lemma GrownTwice(word: Option<string>, a: string, b: string)
    ensures Grown(Grown(word, a), b) == Grown(word, a + b)
  {
    if word.Some? { assert word.value + (a + b) == word.value + a + b; }
  }

  lemma {:induction false} SafeIsLiteral(arg: string, rest: string, word: Option<string>)
    requires forall i | 0 <= i < |arg| :: Safe(arg[i])
    ensures WordsFrom(arg + rest, word) == WordsFrom(rest, if arg == "" then word else Grown(word, arg))
    decreases |arg|
  {
    if arg == "" {
      assert arg + rest == rest;
    } else {
      hide WordsFrom, Grown;
      assert arg + rest == [arg[0]] + (arg[1..] + rest);
      SafeIsPlain(arg[0], arg[1..] + rest, word);
      SafeIsLiteral(arg[1..], rest, Grown(word, [arg[0]]));
      GrownTwice(word, [arg[0]], arg[1..]);
      assert arg == [arg[0]] + arg[1..];
    }
  }

  lemma {:induction false} ReplaceOfConcat(a: string, b: string, c: char, with: string)
    ensures Replace(a + b, c, with) == Replace(a, c, with) + Replace(b, c, with)
  {
    if a == "" {
      assert a + b == b;
    } else {
      assert (a + b)[1..] == a[1..] + b;
      ReplaceOfConcat(a[1..], b, c, with);
    }
  }

  lemma {:induction false} ReplaceOfNone(s: string, c: char, with: string)
    requires c !in s
    ensures Replace(s, c, with) == s
  {
    if s != "" {
      ReplaceOfNone(s[1..], c, with);
      assert s == [s[0]] + s[1..];
    }
  }

  lemma {:induction false} FirstQuote(text: string, after: string)
    requires '\'' !in text
    ensures IndexOf(text + "'" + after, '\'') == Some(|text|)
  {
    var s := text + "'" + after;
    if text != "" {
      assert s[1..] == text[1..] + "'" + after;
      FirstQuote(text[1..], after);
    }
  }

  lemma QuotedReads(text: string, after: string, word: Option<string>)
    requires '\'' !in text
    ensures WordsFrom("'" + text + "'" + after, word) == WordsFrom(after, Grown(word, text))
  {
    hide InDouble, IndexOf, Special, SpecialFirst;
    var s := "'" + text + "'" + after;
    assert s[1..] == text + "'" + after;
    FirstQuote(text, after);
    assert s[1..|text| + 1] == text && s[|text| + 2..] == after;
  }

  lemma EscapedQuoteReads(after: string, word: Option<string>)
    ensures WordsFrom("\\'" + after, word) == WordsFrom(after, Grown(word, "'"))
  {
    var s := "\\'" + after;
    assert s[2..] == after && [s[1]] == "'";
  }

  lemma GrownInParts(word: Option<string>, front: string, back: string)
    ensures Grown(Grown(Grown(word, front), "'"), back) == Grown(word, front + ("'" + back))
  {
    hide Grown;
    GrownTwice(word, front, "'");
    GrownTwice(word, front + "'", back);
    assert front + "'" + back == front + ("'" + back);
  }

  lemma StepsOutReads(front: string, back: string, after: string, word: Option<string>)
    requires '\'' !in front
    ensures WordsFrom("'" + Replace(front + ("'" + back), '\'', "'\\''") + "'" + after, word)
         == WordsFrom("'" + Replace(back, '\'', "'\\''") + "'" + after, Grown(Grown(word, front), "'"))
  {
    hide WordsFrom, Grown, Replace;
    var tail := "'" + Replace(back, '\'', "'\\''") + "'" + after;
    StepsOut(front, back, after);
    QuotedReads(front, "\\'" + tail, word);
    EscapedQuoteReads(tail, Grown(word, front));
  }

  /** Whatever is put in single quotes, its own quotes stepped out of, is read as itself. */
  lemma {:induction false} SingleQuotedReads(arg: string, after: string, word: Option<string>)
    ensures WordsFrom("'" + Replace(arg, '\'', "'\\''") + "'" + after, word) == WordsFrom(after, Grown(word, arg))
    decreases |arg|
  {
    hide WordsFrom, Grown, Replace;
    match IndexOf(arg, '\'') {
      case None =>
        ReplaceOfNone(arg, '\'', "'\\''");
        QuotedReads(arg, after, word);
      case Some(i) =>
        var front, back := arg[..i], arg[i + 1..];
        SingleQuotedReads(back, after, Grown(Grown(word, front), "'"));
        StepsOutReads(front, back, after, word);
        assert arg == front + ("'" + back);
        GrownInParts(word, front, back);
    }
  }

  /**
    Where the quoting steps out for a quote: what is before it in quotes, the quote
    escaped, and the rest in quotes.
   */
  lemma StepsOut(front: string, back: string, after: string)
    requires '\'' !in front
    ensures "'" + Replace(front + ("'" + back), '\'', "'\\''") + "'" + after
         == "'" + front + "'" + ("\\'" + ("'" + Replace(back, '\'', "'\\''") + "'" + after))
  {
    var body := Replace(back, '\'', "'\\''");
    ReplaceOfConcat(front, "'" + back, '\'', "'\\''");
    ReplaceOfNone(front, '\'', "'\\''");
    assert ("'" + back)[1..] == back;
    assert Replace("'" + back, '\'', "'\\''") == "'\\''" + body;
    Regrouped(front, body, after);
  }

  lemma Regrouped(front: string, body: string, after: string)
    ensures "'" + (front + ("'\\''" + body)) + "'" + after == "'" + front + "'" + ("\\'" + ("'" + body + "'" + after))
  {
    assert "'\\''" == "'" + "\\'" + "'";
  }

  lemma QuoteReads(arg: string, after: string, word: Option<string>)
    ensures WordsFrom(Quote(arg) + after, word) == WordsFrom(after, Grown(word, arg))
  {
    if arg != "" && forall i | 0 <= i < |arg| :: Safe(arg[i]) {
      SafeIsLiteral(arg, after, word);
    } else {
      SingleQuotedReads(arg, after, word);
    }
  }

  lemma {:induction false} JoinReads(argv: seq<string>)
    ensures WordsFrom(Join(argv), None) == Some(argv)
  {
    if argv == [] {
    } else if |argv| == 1 {
      QuoteReads(argv[0], "", None);
      assert Quote(argv[0]) + "" == Quote(argv[0]);
      assert argv == [argv[0]];
    } else {
      var tail := " " + Join(argv[1..]);
      assert Quote(argv[0]) + " " + Join(argv[1..]) == Quote(argv[0]) + tail;
      QuoteReads(argv[0], tail, None);
      assert tail[1..] == Join(argv[1..]);
      JoinReads(argv[1..]);
      assert argv == [argv[0]] + argv[1..];
    }
  }

  lemma {:induction false} ReplaceKeepsNul(s: string)
    ensures '\0' in Replace(s, '\'', "'\\''") <==> '\0' in s
  {
    if s != "" {
      ReplaceKeepsNul(s[1..]);
      var first := if s[0] == '\'' then "'\\''" else [s[0]];
      assert Replace(s, '\'', "'\\''") == first + Replace(s[1..], '\'', "'\\''");
      assert '\0' in first <==> s[0] == '\0';
      assert s == [s[0]] + s[1..];
    }
  }

  lemma QuoteKeepsNul(arg: string)
    ensures '\0' in Quote(arg) <==> '\0' in arg
  {
    ReplaceKeepsNul(arg);
  }

  lemma {:induction false} JoinKeepsNul(argv: seq<string>)
    ensures '\0' in Join(argv) <==> exists i :: 0 <= i < |argv| && '\0' in argv[i]
  {
    if argv != [] {
      QuoteKeepsNul(argv[0]);
      JoinKeepsNul(argv[1..]);
      if i :| 0 <= i < |argv| && '\0' in argv[i] {
        assert i > 0 ==> argv[1..][i - 1] == argv[i];
      }
      if i :| 0 <= i < |argv[1..]| && '\0' in argv[1..][i] {
        assert '\0' in argv[i + 1];
      }
    }
  }

  /** A joined argv is read back word for word, exactly when it holds no NUL, which no argv can. */
  lemma JoinedWordsReadBack(argv: seq<string>)
    ensures Words(Join(argv)) == Some(argv) <==> forall i | 0 <= i < |argv| :: '\0' !in argv[i]
  {
    JoinReads(argv);
    JoinKeepsNul(argv);
  }

  /** So no two argvs are ever the same line. */
  lemma JoinIsInjective(a: seq<string>, b: seq<string>)
    requires Join(a) == Join(b)
    ensures a == b
  {
    JoinReads(a);
    JoinReads(b);
  }
}
