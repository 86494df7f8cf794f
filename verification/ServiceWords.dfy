/**
  src/service.rs: a path put into a service file, and what the service manager
  makes of it there.
 */
module ServiceWords {
  import opened Shell
  import opened Wrappers

  /** Every character replaced by what `f` gives for it, in one pass. */
  function Each(s: string, f: char -> string): string {
    if s == "" then "" else f(s[0]) + Each(s[1..], f)
  }

  // ----- Inside the double quotes of an rc.d script -----

  function DoubleQuoted(value: string): string {
    Replace(Replace(Replace(Replace(value, '\\', "\\\\"), '"', "\\\""), '$', "\\$"), '`', "\\`")
  }

  function Escaped(): char -> string {
    (c: char) => if c in "\\\"$`" then ['\\', c] else [c]
  }

  lemma ReplaceOfOne(c: char, of: char, with: string)
    ensures Replace([c], of, with) == if c == of then with else [c]
  {
  }

  lemma ReplaceOfTwo(a: char, b: char, of: char, with: string)
    ensures Replace([a, b], of, with) == (if a == of then with else [a]) + if b == of then with else [b]
  {
    ReplaceOfConcat([a], [b], of, with);
    ReplaceOfOne(a, of, with);
    ReplaceOfOne(b, of, with);
    assert [a, b] == [a] + [b];
  }

  lemma DoubleQuotedOfConcat(a: string, b: string)
    ensures DoubleQuoted(a + b) == DoubleQuoted(a) + DoubleQuoted(b)
  {
    var a1, b1 := Replace(a, '\\', "\\\\"), Replace(b, '\\', "\\\\");
    var a2, b2 := Replace(a1, '"', "\\\""), Replace(b1, '"', "\\\"");
    var a3, b3 := Replace(a2, '$', "\\$"), Replace(b2, '$', "\\$");
    ReplaceOfConcat(a, b, '\\', "\\\\");
    ReplaceOfConcat(a1, b1, '"', "\\\"");
    ReplaceOfConcat(a2, b2, '$', "\\$");
    ReplaceOfConcat(a3, b3, '`', "\\`");
  }

  /** What a replacement makes of two characters it is not about. */
  lemma PairStays(a: char, b: char, of: char, with: string)
    requires a != of && b != of
    ensures Replace([a, b], of, with) == [a, b]
  {
    ReplaceOfTwo(a, b, of, with);
    assert [a] + [b] == [a, b];
  }

  lemma DoubleQuotedOfOne(c: char)
    ensures DoubleQuoted([c]) == Escaped()(c)
  {
    hide Replace;
    assert "\\\\" == ['\\', '\\'] && "\\\"" == ['\\', '"'] && "\\$" == ['\\', '$'] && "\\`" == ['\\', '`'];
    ReplaceOfOne(c, '\\', "\\\\");
    if c == '\\' { PairStays('\\', c, '"', "\\\""); } else { ReplaceOfOne(c, '"', "\\\""); }
    if c in "\\\"" { PairStays('\\', c, '$', "\\$"); } else { ReplaceOfOne(c, '$', "\\$"); }
    if c in "\\\"$" { PairStays('\\', c, '`', "\\`"); } else { ReplaceOfOne(c, '`', "\\`"); }
  }

  /** Replacing one character after another is one pass: no later replacement touches what an earlier one put in. */
  lemma {:induction false} DoubleQuotedIsOnePass(value: string)
    ensures DoubleQuoted(value) == Each(value, Escaped())
  {
    if value != "" {
      assert value == [value[0]] + value[1..];
      DoubleQuotedOfConcat([value[0]], value[1..]);
      DoubleQuotedOfOne(value[0]);
      DoubleQuotedIsOnePass(value[1..]);
    }
  }

  lemma OneReads(c: char, tail: string, so: string)
    ensures InDouble(Escaped()(c) + tail, so) == InDouble(tail, so + [c])
  {
    var s := Escaped()(c) + tail;
    if c in "\\\"$`" {
      assert s[0] == '\\' && s[1] == c && s[2..] == tail;
    } else {
      assert s[0] == c && s[1..] == tail;
    }
  }

  /** Read inside double quotes it is itself again, whatever is around it. */
  lemma {:induction false} DoubleQuotedReads(value: string, rest: string, so: string)
    ensures InDouble(DoubleQuoted(value) + rest, so) == InDouble(rest, so + value)
    decreases |value|
  {
    hide InDouble, DoubleQuoted;
    DoubleQuotedIsOnePass(value);
    if value == "" {
      assert Each(value, Escaped()) + rest == rest && so + value == so;
    } else {
      var c, tail := value[0], DoubleQuoted(value[1..]) + rest;
      DoubleQuotedIsOnePass(value[1..]);
      assert DoubleQuoted(value) + rest == Escaped()(c) + tail;
      OneReads(c, tail, so);
      DoubleQuotedReads(value[1..], rest, so + [c]);
      assert (so + [c]) + value[1..] == so + value;
    }
  }

  /** Text that means itself inside double quotes. */
  predicate IsPlain(s: string) {
    forall i | 0 <= i < |s| :: s[i] !in "\\\"$`"
  }

  lemma {:induction false} PlainReads(text: string, rest: string, so: string)
    requires IsPlain(text)
    ensures InDouble(text + rest, so) == InDouble(rest, so + text)
    decreases |text|
  {
    if text == "" {
      assert text + rest == rest && so + text == so;
    } else {
      assert (text + rest)[1..] == text[1..] + rest && (text + rest)[0] == text[0];
      PlainReads(text[1..], rest, so + [text[0]]);
      assert (so + [text[0]]) + text[1..] == so + text;
    }
  }

  lemma {:induction false} JoinOfConcat(a: seq<string>, b: seq<string>)
    requires a != [] && b != []
    ensures Join(a + b) == Join(a) + " " + Join(b)
    decreases |a|
  {
    assert (a + b)[1..] == a[1..] + b;
    if |a| > 1 {
      JoinOfConcat(a[1..], b);
      assert Join(a + b) == Quote(a[0]) + " " + (Join(a[1..]) + " " + Join(b));
    }
  }

  /** An rc.d script's command string as it is written: the path doubly quoted among words that need no escaping. */
  function CommandString(before: seq<string>, bin: string, after: seq<string>): string {
    Join(before) + " " + DoubleQuoted(Quote(bin)) + " " + Join(after)
  }

  /**
    The script assigns the string in double quotes and evaluates it later: read
    once and then again, the path is the one word it was, among the words that
    were around it.
   */
  lemma PathSurvivesBothReadings(bin: string, before: seq<string>, after: seq<string>)
    requires before != [] && after != [] && IsPlain(Join(before)) && IsPlain(Join(after))
    requires '\0' !in bin && forall word | word in before + after :: '\0' !in word
    ensures var argv := before + [bin] + after;
            && InDouble(CommandString(before, bin, after) + "\"", "") == Some((Join(argv), ""))
            && Words(Join(argv)) == Some(argv)
  {
    hide InDouble, Words, Quote, DoubleQuoted, IsPlain, Each;
    var argv := before + [bin] + after;
    forall i | 0 <= i < |argv| ensures '\0' !in argv[i] {
      assert argv[i] == bin || argv[i] in before + after by {
        if i < |before| { assert (before + after)[i] == argv[i]; }
        if i > |before| { assert (before + after)[i - 1] == argv[i]; }
      }
    }
    JoinedWordsReadBack(argv);
    JoinOfConcat(before + [bin], after);
    JoinOfConcat(before, [bin]);
    ReadsOnce(Join(before), Quote(bin), Join(after));
  }

  lemma ClosingQuote(so: string)
    ensures InDouble("\"", so) == Some((so, ""))
  {
    assert "\""[1..] == "";
  }

  lemma ReadsOnce(front: string, word: string, back: string)
    requires IsPlain(front) && IsPlain(back)
    ensures InDouble(front + " " + DoubleQuoted(word) + " " + back + "\"", "") == Some((front + " " + word + " " + back, ""))
  {
    hide DoubleQuoted, InDouble;
    var s := front + " " + DoubleQuoted(word) + " " + back + "\"";
    var tail := " " + back + "\"";
    assert s == (front + " ") + (DoubleQuoted(word) + tail);
    PlainReads(front + " ", DoubleQuoted(word) + tail, "");
    DoubleQuotedReads(word, tail, "" + (front + " "));
    var so := "" + (front + " ") + word;
    assert tail == (" " + back) + "\"";
    PlainReads(" " + back, "\"", so);
    assert so + (" " + back) == front + " " + word + " " + back;
    ClosingQuote(so + (" " + back));
  }

  /** A path assigned to a variable there is one word with the name it is assigned to. */
  lemma AssignedPathReads(name: string, bin: string)
    requires name != "" && (forall i | 0 <= i < |name| :: Safe(name[i])) && '\0' !in bin
    ensures Words(name + Quote(bin)) == Some([name + bin])
  {
    SafeIsLiteral(name, Quote(bin), None);
    QuoteReads(bin, "", Some(name));
    assert Quote(bin) + "" == Quote(bin);
    QuoteKeepsNul(bin);
    assert forall i | 0 <= i < |name| :: name[i] != '\0';
  }

  // ----- In a systemd unit -----

  function SystemdWord(value: string): string {
    "\"" + SystemdBody(value) + "\""
  }

  function SystemdBody(value: string): string {
    Replace(Replace(Replace(Replace(Replace(Replace(value,
      '\\', "\\\\"), '"', "\\\""), '\n', "\\n"), '\r', "\\r"), '\t', "\\t"), '%', "%%")
  }

  function SystemdEscaped(): char -> string {
    (c: char) =>
      if c == '\\' then "\\\\" else if c == '"' then "\\\"" else if c == '\n' then "\\n"
      else if c == '\r' then "\\r" else if c == '\t' then "\\t" else if c == '%' then "%%" else [c]
  }

  lemma SystemdBodyOfConcat(a: string, b: string)
    ensures SystemdBody(a + b) == SystemdBody(a) + SystemdBody(b)
  {
    hide Replace;
    var a1, b1 := Replace(a, '\\', "\\\\"), Replace(b, '\\', "\\\\");
    var a2, b2 := Replace(a1, '"', "\\\""), Replace(b1, '"', "\\\"");
    var a3, b3 := Replace(a2, '\n', "\\n"), Replace(b2, '\n', "\\n");
    var a4, b4 := Replace(a3, '\r', "\\r"), Replace(b3, '\r', "\\r");
    var a5, b5 := Replace(a4, '\t', "\\t"), Replace(b4, '\t', "\\t");
    ReplaceOfConcat(a, b, '\\', "\\\\");
    ReplaceOfConcat(a1, b1, '"', "\\\"");
    ReplaceOfConcat(a2, b2, '\n', "\\n");
    ReplaceOfConcat(a3, b3, '\r', "\\r");
    ReplaceOfConcat(a4, b4, '\t', "\\t");
    ReplaceOfConcat(a5, b5, '%', "%%");
  }

  lemma SystemdBodyOfOne(c: char)
    ensures SystemdBody([c]) == SystemdEscaped()(c)
  {
    hide Replace;
    ReplaceOfOne(c, '\\', "\\\\");
    ReplaceOfOne(c, '"', "\\\"");
    ReplaceOfOne(c, '\n', "\\n");
    ReplaceOfOne(c, '\r', "\\r");
    ReplaceOfOne(c, '\t', "\\t");
    ReplaceOfOne(c, '%', "%%");
    forall d | d in "\\\"nrt"
      ensures d != '"' ==> Replace(['\\', d], '"', "\\\"") == ['\\', d]
      ensures Replace(['\\', d], '\n', "\\n") == ['\\', d] && Replace(['\\', d], '\r', "\\r") == ['\\', d]
      ensures Replace(['\\', d], '\t', "\\t") == ['\\', d] && Replace(['\\', d], '%', "%%") == ['\\', d]
    {
      if d != '"' { PairStays('\\', d, '"', "\\\""); }
      PairStays('\\', d, '\n', "\\n");
      PairStays('\\', d, '\r', "\\r");
      PairStays('\\', d, '\t', "\\t");
      PairStays('\\', d, '%', "%%");
    }
    assert "\\\\" == ['\\', '\\'] && "\\\"" == ['\\', '"'];
    assert "\\n" == ['\\', 'n'] && "\\r" == ['\\', 'r'] && "\\t" == ['\\', 't'];
  }

  lemma {:induction false} SystemdBodyIsOnePass(value: string)
    ensures SystemdBody(value) == Each(value, SystemdEscaped())
  {
    if value != "" {
      assert value == [value[0]] + value[1..];
      SystemdBodyOfConcat([value[0]], value[1..]);
      SystemdBodyOfOne(value[0]);
      SystemdBodyIsOnePass(value[1..]);
    }
  }

  /** What an escape of one letter stands for, of those systemd.syntax lists. */
  function Unescaped(c: char): Option<char> {
    match c
    case 'a' => Some('\U{07}')
    case 'b' => Some('\U{08}')
    case 'f' => Some('\U{0C}')
    case 'n' => Some('\n')
    case 'r' => Some('\r')
    case 't' => Some('\t')
    case 'v' => Some('\U{0B}')
    case 's' => Some(' ')
    case '\\' => Some('\\')
    case '"' => Some('"')
    case '\'' => Some('\'')
    case _ => None
  }

  /** The inside of a double-quoted word up to its closing quote, its escapes read. */
  function Unquoted(s: string, so: string): Option<(string, string)>
    decreases |s|
  {
    if s == "" then None
    else if s[0] == '"' then Some((so, s[1..]))
    else if s[0] == '\\' then
      if |s| > 1 && Unescaped(s[1]).Some? then Unquoted(s[2..], so + [Unescaped(s[1]).value]) else None
    else Unquoted(s[1..], so + [s[0]])
  }

  /** Specifiers: two percent signs are one, and one is something else's name. */
  function Specified(s: string): Option<string> {
    if s == "" then Some("")
    else if s[0] == '%' then
      if |s| > 1 && s[1] == '%' then
        match Specified(s[2..]) case Some(rest) => Some("%" + rest) case None => None
      else None
    else
      match Specified(s[1..]) case Some(rest) => Some([s[0]] + rest) case None => None
  }

  /** One quoted word as systemd reads it. */
  function SystemdReads(s: string): Option<string> {
    if s == "" || s[0] != '"' then None
    else
      match Unquoted(s[1..], "")
      case Some(read) => if read.1 == "" then Specified(read.0) else None
      case None => None
  }

  function Percents(): char -> string {
    (c: char) => if c == '%' then "%%" else [c]
  }

  lemma {:induction false} SystemdBodyUnquotes(value: string, after: string, so: string)
    ensures Unquoted(Each(value, SystemdEscaped()) + "\"" + after, so) == Some((so + Each(value, Percents()), after))
    decreases |value|
  {
    if value == "" {
      assert Each(value, SystemdEscaped()) + "\"" + after == "\"" + after && ("\"" + after)[1..] == after;
      assert so + Each(value, Percents()) == so;
    } else {
      hide Unquoted;
      var c := value[0];
      var rest := Each(value[1..], SystemdEscaped()) + "\"" + after;
      var s := Each(value, SystemdEscaped()) + "\"" + after;
      assert s == SystemdEscaped()(c) + rest;
      var read := Percents()(c);
      SystemdBodyUnquotes(value[1..], after, so + read);
      assert Unquoted(s, so) == Unquoted(rest, so + read) by { OneUnquotes(c, rest, so); }
      assert (so + read) + Each(value[1..], Percents()) == so + Each(value, Percents());
    }
  }

  lemma OneUnquotes(c: char, rest: string, so: string)
    ensures Unquoted(SystemdEscaped()(c) + rest, so) == Unquoted(rest, so + Percents()(c))
  {
    var s := SystemdEscaped()(c) + rest;
    if c == '%' {
      assert s[1..] == "%" + rest && (s[1..])[1..] == rest;
      assert (so + "%") + "%" == so + "%%";
    } else if c in "\\\"\n\r\t" {
      assert s[2..] == rest;
    } else {
      assert s[1..] == rest;
    }
  }

  lemma OneIsSpecified(c: char, rest: string)
    ensures Specified(Percents()(c) + rest)
         == match Specified(rest) case Some(read) => Some([c] + read) case None => None
  {
    var s := Percents()(c) + rest;
    if c == '%' { assert s[2..] == rest; } else { assert s[1..] == rest; }
  }

  lemma {:induction false} PercentsAreSpecified(value: string)
    ensures Specified(Each(value, Percents())) == Some(value)
  {
    if value != "" {
      hide Specified;
      PercentsAreSpecified(value[1..]);
      OneIsSpecified(value[0], Each(value[1..], Percents()));
      assert value == [value[0]] + value[1..];
    }
  }

  /** Any value at all, made a systemd word, is read back as itself. */
  lemma SystemdWordReadsBack(value: string)
    ensures SystemdReads(SystemdWord(value)) == Some(value)
  {
    SystemdBodyIsOnePass(value);
    SystemdBodyUnquotes(value, "", "");
    var s := SystemdWord(value);
    assert s[1..] == Each(value, SystemdEscaped()) + "\"" + "";
    assert "" + Each(value, Percents()) == Each(value, Percents());
    PercentsAreSpecified(value);
  }

  /** And stays on one line of the file, whatever it holds. */
  lemma SystemdWordIsOneLine(value: string)
    ensures '\n' !in SystemdWord(value) && '\r' !in SystemdWord(value)
  {
    SystemdBodyIsOnePass(value);
    EachIsOneLine(value);
  }

  lemma {:induction false} EachIsOneLine(value: string)
    ensures '\n' !in Each(value, SystemdEscaped()) && '\r' !in Each(value, SystemdEscaped())
  {
    if value != "" { EachIsOneLine(value[1..]); }
  }
}
