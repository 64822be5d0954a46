/** Decimal numerals, as integers are printed. */
module Decimals {
  import opened Options

  function Digit(d: nat): char
    requires d < 10
  {
    '0' + d as char
  }

  predicate IsDigit(c: char) {
    '0' <= c <= '9'
  }

  function Decimal(n: nat): string {
    if n < 10 then [Digit(n)] else Decimal(n / 10) + [Digit(n % 10)]
  }

  /** The number that a non-empty string of digits denotes. */
  function ParseDecimal(s: string): Option<nat> {
    if s == [] || !IsDigit(s[|s| - 1]) then None
    else
      var last := (s[|s| - 1] - '0') as nat;
      if |s| == 1 then Some(last)
      else match ParseDecimal(s[..|s| - 1])
        case Some(n) => Some(10 * n + last)
        case None => None
  }

  lemma {:induction false} DecimalRoundTrip(n: nat)
    ensures ParseDecimal(Decimal(n)) == Some(n)
    ensures Decimal(n) != [] && forall c :: c in Decimal(n) ==> IsDigit(c)
  {
    if n >= 10 {
      DecimalRoundTrip(n / 10);
      var s := Decimal(n);
      assert s[..|s| - 1] == Decimal(n / 10) && s[|s| - 1] == Digit(n % 10);
    }
  }
}

/**
  How a POSIX shell splits a script into simple commands, for scripts without quoting, expansion, control operators
  or redirection: line continuation (section 2.2.1 of the Shell Command Language) and token recognition with comments
  (section 2.3). A script that uses anything else is not split.
 */
module Shell {
  import opened Options

  type Command = seq<string>

  /** A word may be under way, a comment, or a backslash; or the script is not of the supported kind. */
  datatype Mode = Scan | Comment | Escape | Unsupported

  /** The finished commands, the finished words of the current one, and the word under way (empty if none). */
  datatype Scanner = Scanner(mode: Mode, commands: seq<Command>, words: Command, word: string)

  const START := Scanner(Scan, [], [], "")

  predicate Blank(c: char) {
    c == ' ' || c == '\t'
  }

  /** Characters that never have a special meaning inside a word. */
  predicate Plain(c: char) {
    'a' <= c <= 'z' || 'A' <= c <= 'Z' || '0' <= c <= '9' || c in "-_%.,/:+@"
  }

  predicate IsWord(text: string) {
    text != [] && forall c :: c in text ==> Plain(c)
  }

  function EndWord(words: Command, word: string): Command {
    if word == "" then words else words + [word]
  }

  function EndCommand(commands: seq<Command>, words: Command): seq<Command> {
    if words == [] then commands else commands + [words]
  }

  function EndLine(s: Scanner): Scanner {
    Scanner(Scan, EndCommand(s.commands, EndWord(s.words, s.word)), [], "")
  }

  function Step(s: Scanner, c: char): Scanner {
    match s.mode
    case Unsupported => s
    case Comment => if c == '\n' then EndLine(s) else s
    case Escape => s.(mode := if c == '\n' then Scan else Unsupported)
    case Scan =>
      if c == '\\' then s.(mode := Escape)
      else if c == '\n' then EndLine(s)
      else if Blank(c) then s.(words := EndWord(s.words, s.word), word := "")
      else if c == '#' && s.word == "" then s.(mode := Comment)
      else if Plain(c) then s.(word := s.word + [c])
      else s.(mode := Unsupported)
  }

  function Feed(s: Scanner, text: string): Scanner
    decreases |text|
  {
    if text == [] then s else Feed(Step(s, text[0]), text[1..])
  }

  /** The commands of a script, each as its words. */
  function Commands(script: string): Option<seq<Command>> {
    var s := Feed(START, script);
    if s.mode.Scan? || s.mode.Comment? then Some(EndLine(s).commands) else None
  }

  lemma {:induction false} FeedAppend(s: Scanner, a: string, b: string)
    ensures Feed(s, a + b) == Feed(Feed(s, a), b)
    decreases |a|
  {
    if a == [] {
      assert a + b == b;
    } else {
      assert (a + b)[0] == a[0] && (a + b)[1..] == a[1..] + b;
      FeedAppend(Step(s, a[0]), a[1..], b);
    }
  }

  lemma {:induction false} FeedPlain(s: Scanner, text: string)
    requires s.mode.Scan? && forall c :: c in text ==> Plain(c)
    ensures Feed(s, text) == s.(word := s.word + text)
    decreases |text|
  {
    if text == [] {
      assert s.word + text == s.word;
    } else {
      assert text[0] in text;
      FeedPlain(Step(s, text[0]), text[1..]);
      assert s.word + [text[0]] + text[1..] == s.word + text;
    }
  }

  lemma {:induction false} FeedBlanks(s: Scanner, text: string)
    requires s.mode.Scan? && s.word == "" && forall c :: c in text ==> Blank(c)
    ensures Feed(s, text) == s
    decreases |text|
  {
    if text != [] {
      assert text[0] in text;
      FeedBlanks(Step(s, text[0]), text[1..]);
    }
  }

  lemma {:induction false} FeedComment(s: Scanner, text: string)
    requires s.mode.Comment? && forall c :: c in text ==> c != '\n'
    ensures Feed(s, text) == s
    decreases |text|
  {
    if text != [] {
      assert text[0] in text && forall c :: c in text[1..] ==> c in text;
      FeedComment(s, text[1..]);
    }
  }

  lemma FeedOne(s: Scanner, c: char)
    ensures Feed(s, [c]) == Step(s, c)
  {
    assert [c][1..] == [];
  }

  /** A blank, a line continuation and a tab separate words but not commands. */
  lemma FeedContinuation(s: Scanner)
    requires s.mode.Scan?
    ensures Feed(s, " \\\n\t") == s.(words := EndWord(s.words, s.word), word := "")
  {
    assert " \\\n\t" == [' '] + (['\\'] + (['\n'] + ['\t']));
    FeedAppend(s, [' '], ['\\'] + (['\n'] + ['\t']));
    FeedOne(s, ' ');
    var t := Step(s, ' ');
    FeedAppend(t, ['\\'], ['\n'] + ['\t']);
    FeedOne(t, '\\');
    FeedAppend(Step(t, '\\'), ['\n'], ['\t']);
    FeedOne(Step(t, '\\'), '\n');
    FeedOne(t, '\t');
  }

  /** A word of plain characters followed by a blank. */
  lemma FeedWord(s: Scanner, text: string, c: char)
    requires s.mode.Scan? && s.word == "" && IsWord(text) && Blank(c)
    ensures Feed(s, text + [c]) == s.(words := s.words + [text])
  {
    FeedAppend(s, text, [c]);
    FeedPlain(s, text);
    FeedOne(s.(word := s.word + text), c);
    assert s.word + text == text;
  }

  /** The same at the end of a line. */
  lemma FeedLast(s: Scanner, text: string)
    requires s.mode.Scan? && s.word == "" && IsWord(text)
    ensures Feed(s, text + ['\n']) == Scanner(Scan, s.commands + [s.words + [text]], [], "")
  {
    FeedAppend(s, text, ['\n']);
    FeedPlain(s, text);
    FeedOne(s.(word := s.word + text), '\n');
    assert s.word + text == text;
  }

  /** Empty lines and indentation between commands. */
  lemma {:induction false} FeedSpace(s: Scanner, text: string)
    requires s.mode.Scan? && s.words == [] && s.word == "" && forall c :: c in text ==> Blank(c) || c == '\n'
    ensures Feed(s, text) == s
    decreases |text|
  {
    if text != [] {
      assert text[0] in text;
      FeedSpace(Step(s, text[0]), text[1..]);
    }
  }
}
