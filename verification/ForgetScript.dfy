/** The specification of a forget schedule. */
module ForgetSpecs {
  datatype ForgetSpec = ForgetSpec(schedule: string, repository: string, prune: bool, checkPercentage: int,
                                   keepLast: int, keepHourly: int, keepDaily: int, keepWeekly: int,
                                   keepMonthly: int, keepYearly: int)
}

/** The shell script that a forget job runs: its template, and what the shell makes of it. */
module ForgetScript {
  import opened Options
  import opened Decimals
  import opened ForgetSpecs
  import opened Shell

  // ----- the template -----

  /** Literal text; text that depends on `prune`; or text around a number, present when the number is positive. */
  datatype Piece = Text(text: string) | IfPrune(text: string) | IfPositive(field: Field, before: string, after: string)

  datatype Field = Check | Last | Hourly | Daily | Weekly | Monthly | Yearly

  function Value(spec: ForgetSpec, field: Field): int {
    match field
    case Check => spec.checkPercentage
    case Last => spec.keepLast
    case Hourly => spec.keepHourly
    case Daily => spec.keepDaily
    case Weekly => spec.keepWeekly
    case Monthly => spec.keepMonthly
    case Yearly => spec.keepYearly
  }

  const CONTINUE := Text(" \\\n\t")

  const TEMPLATE: seq<Piece> := [
    Text("\n\tset -eu\n\n\t"),
    IfPositive(Check, "\n\trestic check --read-data-subset ", "%\n\t"),
    Text("\n\n\trestic forget \\\n\t"),
    IfPrune("--prune"), CONTINUE,
    IfPositive(Last, "   --keep-last ", ""), CONTINUE,
    IfPositive(Hourly, " --keep-hourly ", ""), CONTINUE,
    IfPositive(Daily, "  --keep-daily ", ""), CONTINUE,
    IfPositive(Weekly, " --keep-weekly ", ""), CONTINUE,
    IfPositive(Monthly, "--keep-monthly ", ""), CONTINUE,
    IfPositive(Yearly, " --keep-yearly ", ""),
    Text(" # Yes, you must pass it=)\n\t")
  ]

  function RenderPiece(spec: ForgetSpec, p: Piece): string {
    match p
    case Text(text) => text
    case IfPrune(text) => if spec.prune then text else ""
    case IfPositive(field, before, after) =>
      if Value(spec, field) > 0 then before + Decimal(Value(spec, field)) + after else ""
  }

  /** The text of the pieces from i on. */
  function Render(template: seq<Piece>, spec: ForgetSpec, i: nat): string
    decreases |template| - i
  {
    if i >= |template| then "" else RenderPiece(spec, template[i]) + Render(template, spec, i + 1)
  }

  /** Execute a template piece by piece into a buffer. */
  method Execute(template: seq<Piece>, spec: ForgetSpec) returns (buffer: string)
    ensures buffer == Render(template, spec, 0)
  {
    buffer := "";
    for i := 0 to |template|
      invariant buffer + Render(template, spec, i) == Render(template, spec, 0)
    {
      assert buffer + (RenderPiece(spec, template[i]) + Render(template, spec, i + 1))
          == (buffer + RenderPiece(spec, template[i])) + Render(template, spec, i + 1);
      buffer := buffer + RenderPiece(spec, template[i]);
    }
    assert buffer + "" == buffer;
  }

  function Script(spec: ForgetSpec): string {
    Render(TEMPLATE, spec, 0)
  }

  /** The container arguments: one script. */
  method ForgetResticArgs(spec: ForgetSpec) returns (args: seq<string>)
    ensures args == [Script(spec)]
  {
    var buffer := Execute(TEMPLATE, spec);
    return [buffer];
  }

  // ----- what the shell makes of it -----

  function KeepWords(name: string, n: int): Command {
    if n > 0 then [name, Decimal(n)] else []
  }

  function CheckCommands(n: int): seq<Command> {
    if n > 0 then [["restic", "check", "--read-data-subset", Decimal(n) + "%"]] else []
  }

  function ForgetCommand(spec: ForgetSpec): Command {
    ["restic", "forget"] + (if spec.prune then ["--prune"] else [])
    + KeepWords("--keep-last", spec.keepLast) + KeepWords("--keep-hourly", spec.keepHourly)
    + KeepWords("--keep-daily", spec.keepDaily) + KeepWords("--keep-weekly", spec.keepWeekly)
    + KeepWords("--keep-monthly", spec.keepMonthly) + KeepWords("--keep-yearly", spec.keepYearly)
  }

  // ----- reading the commands back -----

  /** What the commands ask restic for; 0 where nothing is asked. */
  datatype Request = Request(prune: bool, check: nat, last: nat, hourly: nat, daily: nat, weekly: nat, monthly: nat, yearly: nat)

  const NOTHING := Request(false, 0, 0, 0, 0, 0, 0, 0)

  function Keep(r: Request, flag: string, n: nat): Option<Request> {
    if flag == "--keep-last" then Some(r.(last := n))
    else if flag == "--keep-hourly" then Some(r.(hourly := n))
    else if flag == "--keep-daily" then Some(r.(daily := n))
    else if flag == "--keep-weekly" then Some(r.(weekly := n))
    else if flag == "--keep-monthly" then Some(r.(monthly := n))
    else if flag == "--keep-yearly" then Some(r.(yearly := n))
    else None
  }

  /** Flags in any order. */
  function ParseFlags(words: Command, r: Request): Option<Request>
    decreases |words|
  {
    if words == [] then Some(r)
    else if words[0] == "--prune" then ParseFlags(words[1..], r.(prune := true))
    else if |words| == 1 then None
    else match ParseDecimal(words[1])
      case None => None
      case Some(n) =>
        match Keep(r, words[0], n)
        case None => None
        case Some(q) => ParseFlags(words[2..], q)
  }

  function ParsePercentage(word: string): Option<nat> {
    if word != [] && word[|word| - 1] == '%' then ParseDecimal(word[..|word| - 1]) else None
  }

  /** `set -eu`, an optional check, one forget. */
  function Parse(commands: seq<Command>): Option<Request> {
    if |commands| == 0 || commands[0] != ["set", "-eu"] then None
    else if |commands| == 2 then ParseForget(commands[1], NOTHING)
    else if |commands| == 3 && |commands[1]| == 4 && commands[1][..3] == ["restic", "check", "--read-data-subset"] then
      match ParsePercentage(commands[1][3])
      case None => None
      case Some(n) => ParseForget(commands[2], NOTHING.(check := n))
    else None
  }

  function ParseForget(command: Command, r: Request): Option<Request> {
    if |command| >= 2 && command[..2] == ["restic", "forget"] then ParseFlags(command[2..], r) else None
  }

  // ----- the template, piece by piece, as the shell reads it -----

  lemma FeedRender(s: Scanner, template: seq<Piece>, spec: ForgetSpec, i: nat)
    requires i < |template|
    ensures Feed(s, Render(template, spec, i)) == Feed(Feed(s, RenderPiece(spec, template[i])), Render(template, spec, i + 1))
  {
    FeedAppend(s, RenderPiece(spec, template[i]), Render(template, spec, i + 1));
  }

  lemma WordsOfTemplate()
    ensures IsWord("set") && IsWord("-eu") && IsWord("restic") && IsWord("check") && IsWord("forget")
    ensures IsWord("--read-data-subset") && IsWord("--prune") && IsWord("--keep-last") && IsWord("--keep-hourly")
    ensures IsWord("--keep-daily") && IsWord("--keep-weekly") && IsWord("--keep-monthly") && IsWord("--keep-yearly")
  {
  }

  /** A flag with its number, or nothing, and the end of the line. */
  lemma FeedKeep(s: Scanner, pad: string, flag: string, n: int)
    requires s.mode.Scan? && s.word == "" && IsWord(flag) && forall c :: c in pad ==> Blank(c)
    ensures Feed(s, if n > 0 then pad + flag + " " + Decimal(n) + "" else "")
            == if n > 0 then s.(words := s.words + [flag], word := Decimal(n)) else s
  {
    if n > 0 {
      DecimalRoundTrip(n);
      assert pad + flag + " " + Decimal(n) + "" == pad + ((flag + " ") + Decimal(n));
      FeedAppend(s, pad, (flag + " ") + Decimal(n));
      FeedBlanks(s, pad);
      FeedAppend(s, flag + " ", Decimal(n));
      FeedWord(s, flag, ' ');
      FeedPlain(s.(words := s.words + [flag]), Decimal(n));
      assert "" + Decimal(n) == Decimal(n);
    }
  }

  /** One keep line of the template with the continuation after it. */
  lemma FeedKeepLine(s: Scanner, template: seq<Piece>, spec: ForgetSpec, i: nat, field: Field, pad: string, flag: string)
    requires s.mode.Scan? && s.word == "" && IsWord(flag) && forall c :: c in pad ==> Blank(c)
    requires KeepLine(template, i, field, pad, flag)
    ensures Feed(s, Render(template, spec, i))
            == Feed(s.(words := s.words + KeepWords(flag, Value(spec, field))), Render(template, spec, i + 2))
  {
    var n := Value(spec, field);
    FeedRender(s, template, spec, i);
    FeedKeep(s, pad, flag, n);
    var t := Feed(s, RenderPiece(spec, template[i]));
    FeedRender(t, template, spec, i + 1);
    FeedContinuation(t);
    DecimalsAreWords(n);
    if n > 0 {
      assert s.words + [flag] + [Decimal(n)] == s.words + [flag, Decimal(n)];
    } else {
      assert s.words + [] == s.words;
    }
  }

  lemma DecimalsAreWords(n: int)
    ensures n > 0 ==> Decimal(n) != ""
  {
    if n > 0 { DecimalRoundTrip(n); }
  }

  lemma FeedHead()
    ensures Feed(START, "\n\tset -eu\n\n\t") == START.(commands := [["set", "-eu"]])
  {
    hide Feed, Step, IsWord;
    WordsOfTemplate();
    var s := START;
    assert "\n\tset -eu\n\n\t" == "\n\t" + (("set" + [' ']) + (("-eu" + ['\n']) + "\n\t"));
    FeedAppend(s, "\n\t", ("set" + [' ']) + (("-eu" + ['\n']) + "\n\t"));
    FeedSpace(s, "\n\t");
    FeedAppend(s, "set" + [' '], ("-eu" + ['\n']) + "\n\t");
    FeedWord(s, "set", ' ');
    var t := s.(words := ["set"]);
    FeedAppend(t, "-eu" + ['\n'], "\n\t");
    FeedLast(t, "-eu");
    assert [] + ["set"] == ["set"] && ["set"] + ["-eu"] == ["set", "-eu"];
    assert START.commands + [["set", "-eu"]] == [["set", "-eu"]];
    FeedSpace(s.(commands := [["set", "-eu"]]), "\n\t");
  }

  lemma CheckText(d: string)
    ensures "\n\trestic check --read-data-subset " + d + "%\n\t"
            == "\n\t" + (("restic" + [' ']) + (("check" + [' ']) + (("--read-data-subset" + [' ']) + (((d + "%") + ['\n']) + "\t"))))
  {
    assert "\n\trestic check --read-data-subset "
        == "\n\t" + (("restic" + [' ']) + (("check" + [' ']) + ("--read-data-subset" + [' '])));
  }

  lemma PercentageIsWord(n: nat)
    ensures IsWord(Decimal(n) + "%")
  {
    DecimalRoundTrip(n);
  }

  lemma FeedCheck(s: Scanner, n: int)
    requires s.mode.Scan? && s.words == [] && s.word == ""
    ensures Feed(s, if n > 0 then "\n\trestic check --read-data-subset " + Decimal(n) + "%\n\t" else "")
            == s.(commands := s.commands + CheckCommands(n))
  {
    hide Feed, Step, IsWord;
    WordsOfTemplate();
    if n > 0 {
      DecimalRoundTrip(n);
      var last := Decimal(n) + "%";
      PercentageIsWord(n);
      var tail := (last + ['\n']) + "\t";
      CheckText(Decimal(n));
      assert [] + ["restic"] == ["restic"] && ["restic"] + ["check"] == ["restic", "check"];
      assert ["restic", "check"] + ["--read-data-subset"] == ["restic", "check", "--read-data-subset"];
      assert ["restic", "check", "--read-data-subset"] + [last] == ["restic", "check", "--read-data-subset", last];
      FeedAppend(s, "\n\t", ("restic" + [' ']) + (("check" + [' ']) + (("--read-data-subset" + [' ']) + tail)));
      FeedSpace(s, "\n\t");
      FeedAppend(s, "restic" + [' '], ("check" + [' ']) + (("--read-data-subset" + [' ']) + tail));
      FeedWord(s, "restic", ' ');
      var t := s.(words := ["restic"]);
      FeedAppend(t, "check" + [' '], ("--read-data-subset" + [' ']) + tail);
      FeedWord(t, "check", ' ');
      t := s.(words := ["restic", "check"]);
      FeedAppend(t, "--read-data-subset" + [' '], tail);
      FeedWord(t, "--read-data-subset", ' ');
      t := s.(words := ["restic", "check", "--read-data-subset"]);
      FeedAppend(t, last + ['\n'], "\t");
      FeedLast(t, last);
      FeedSpace(s.(commands := s.commands + CheckCommands(n)), "\t");
    } else {
      NothingToFeed(s);
      assert s.commands + [] == s.commands;
    }
  }

  lemma FeedForget(s: Scanner)
    requires s.mode.Scan? && s.words == [] && s.word == ""
    ensures Feed(s, "\n\n\trestic forget \\\n\t") == s.(words := ["restic", "forget"])
  {
    hide Feed, Step, IsWord;
    WordsOfTemplate();
    assert "\n\n\trestic forget \\\n\t" == "\n\n\t" + (("restic" + [' ']) + ("forget" + " \\\n\t"));
    FeedAppend(s, "\n\n\t", ("restic" + [' ']) + ("forget" + " \\\n\t"));
    FeedSpace(s, "\n\n\t");
    FeedAppend(s, "restic" + [' '], "forget" + " \\\n\t");
    FeedWord(s, "restic", ' ');
    var t := s.(words := ["restic"]);
    assert [] + ["restic"] == ["restic"] && ["restic"] + ["forget"] == ["restic", "forget"];
    FeedAppend(t, "forget", " \\\n\t");
    FeedPlain(t, "forget");
    assert "" + "forget" == "forget";
    FeedContinuation(t.(word := "forget"));
  }

  lemma FeedPrune(s: Scanner, template: seq<Piece>, spec: ForgetSpec, i: nat)
    requires s.mode.Scan? && s.word == ""
    requires i + 1 < |template| && template[i] == IfPrune("--prune") && template[i + 1] == CONTINUE
    ensures Feed(s, Render(template, spec, i))
            == Feed(s.(words := s.words + if spec.prune then ["--prune"] else []), Render(template, spec, i + 2))
  {
    FeedRender(s, template, spec, i);
    FeedPlain(s, RenderPiece(spec, template[i]));
    assert "" + RenderPiece(spec, template[i]) == RenderPiece(spec, template[i]);
    var t := Feed(s, RenderPiece(spec, template[i]));
    FeedRender(t, template, spec, i + 1);
    FeedContinuation(t);
    assert s.words + [] == s.words;
  }

  lemma TailText()
    ensures " # Yes, you must pass it=)\n\t" == [' '] + (['#'] + (" Yes, you must pass it=)" + (['\n'] + "\t")))
  {
    assert " # Yes, you must pass it=)\n\t" == " #" + " Yes, you must pass it=)" + "\n\t";
    TailShape(" Yes, you must pass it=)");
  }

  lemma TailShape(comment: string)
    ensures " #" + comment + "\n\t" == [' '] + (['#'] + (comment + (['\n'] + "\t")))
  {
    assert " #" == [' '] + ['#'] && "\n\t" == ['\n'] + "\t";
  }

  lemma CommentText()
    ensures forall c :: c in " Yes, you must pass it=)" ==> c != '\n'
  {
  }

  /** The comment at the end keeps the last continuation from being needed. */
  lemma FeedTail(s: Scanner)
    requires s.mode.Scan?
    ensures Feed(s, " # Yes, you must pass it=)\n\t") == EndLine(s)
  {
    hide Feed;
    var comment := " Yes, you must pass it=)";
    TailText();
    CommentText();
    FeedAppend(s, [' '], ['#'] + (comment + (['\n'] + "\t")));
    FeedOne(s, ' ');
    var t := Step(s, ' ');
    FeedAppend(t, ['#'], comment + (['\n'] + "\t"));
    FeedOne(t, '#');
    var u := Step(t, '#');
    FeedAppend(u, comment, ['\n'] + "\t");
    FeedComment(u, comment);
    FeedAppend(u, ['\n'], "\t");
    FeedOne(u, '\n');
    FeedSpace(EndLine(s), "\t");
  }

  /**
    The shell splits every script into exactly `set -eu`, a `restic check` if a check percentage is set, and
    one `restic forget` with one word or pair of words for every option that is set, in order.
   */
  lemma ScriptCommands(spec: ForgetSpec)
    ensures Commands(Script(spec)) == Some([["set", "-eu"]] + CheckCommands(spec.checkPercentage) + [ForgetCommand(spec)])
  {
    var template := TEMPLATE;
    HeadPieces(template);
    TemplateLines(template);
    FeedTemplate(template, spec);
    assert ForgetCommand(spec) != [];
  }

  lemma FeedTemplate(template: seq<Piece>, spec: ForgetSpec)
    requires HeadLines(template) && OptionLines(template)
    ensures Feed(START, Render(template, spec, 0))
            == START.(commands := [["set", "-eu"]] + CheckCommands(spec.checkPercentage) + [ForgetCommand(spec)])
  {
    hide Feed, Step, IsWord, Decimal, Render, CheckCommands, ForgetCommand;
    FeedRender(START, template, spec, 0);
    FeedHead();
    var s := START.(commands := [["set", "-eu"]]);
    FeedRender(s, template, spec, 1);
    FeedCheck(s, spec.checkPercentage);
    s := s.(commands := s.commands + CheckCommands(spec.checkPercentage));
    FeedRender(s, template, spec, 2);
    FeedForget(s);
    s := s.(words := ["restic", "forget"]);
    FeedOptions(s, template, spec);
    assert ForgetCommand(spec) != [] by { ForgetIsNotEmpty(spec); }
  }

  lemma ForgetIsNotEmpty(spec: ForgetSpec)
    ensures ForgetCommand(spec) != []
  {
  }

  ghost predicate KeepLine(template: seq<Piece>, i: nat, field: Field, pad: string, flag: string) {
    i + 1 < |template| && template[i] == IfPositive(field, pad + flag + " ", "") && template[i + 1] == CONTINUE
  }

  ghost predicate HeadLines(template: seq<Piece>) {
    && |template| == 17
    && template[0] == Text("\n\tset -eu\n\n\t")
    && template[1] == IfPositive(Check, "\n\trestic check --read-data-subset ", "%\n\t")
    && template[2] == Text("\n\n\trestic forget \\\n\t")
  }

  ghost predicate OptionLines(template: seq<Piece>) {
    && |template| == 17
    && template[3] == IfPrune("--prune") && template[4] == CONTINUE
    && KeepLine(template, 5, Last, "   ", "--keep-last")
    && KeepLine(template, 7, Hourly, " ", "--keep-hourly")
    && KeepLine(template, 9, Daily, "  ", "--keep-daily")
    && KeepLine(template, 11, Weekly, " ", "--keep-weekly")
    && KeepLine(template, 13, Monthly, "", "--keep-monthly")
    && template[15] == IfPositive(Yearly, " " + "--keep-yearly" + " ", "")
    && template[16] == Text(" # Yes, you must pass it=)\n\t")
  }

  lemma HeadPieces(template: seq<Piece>)
    requires template == TEMPLATE
    ensures HeadLines(template)
  {
  }

  lemma FirstOptions(template: seq<Piece>)
    requires template == TEMPLATE
    ensures |template| == 17 && template[3] == IfPrune("--prune") && template[4] == CONTINUE
    ensures template[5] == IfPositive(Last, "   --keep-last ", "") && template[6] == CONTINUE
    ensures template[7] == IfPositive(Hourly, " --keep-hourly ", "") && template[8] == CONTINUE
  {
  }

  lemma MoreOptions(template: seq<Piece>)
    requires template == TEMPLATE
    ensures |template| == 17 && template[9] == IfPositive(Daily, "  --keep-daily ", "") && template[10] == CONTINUE
    ensures template[11] == IfPositive(Weekly, " --keep-weekly ", "") && template[12] == CONTINUE
  {
  }

  lemma LastOptions(template: seq<Piece>)
    requires template == TEMPLATE
    ensures |template| == 17 && template[13] == IfPositive(Monthly, "--keep-monthly ", "") && template[14] == CONTINUE
    ensures template[15] == IfPositive(Yearly, " --keep-yearly ", "")
    ensures template[16] == Text(" # Yes, you must pass it=)\n\t")
  {
  }

  lemma KeepTexts()
    ensures "   " + "--keep-last" + " " == "   --keep-last " && " " + "--keep-hourly" + " " == " --keep-hourly "
    ensures "  " + "--keep-daily" + " " == "  --keep-daily " && " " + "--keep-weekly" + " " == " --keep-weekly "
    ensures "" + "--keep-monthly" + " " == "--keep-monthly " && " " + "--keep-yearly" + " " == " --keep-yearly "
  {
  }

  lemma TemplateLines(template: seq<Piece>)
    requires template == TEMPLATE
    ensures OptionLines(template)
  {
    FirstOptions(template);
    MoreOptions(template);
    LastOptions(template);
    KeepTexts();
  }

  lemma FeedOptions(s: Scanner, template: seq<Piece>, spec: ForgetSpec)
    requires OptionLines(template) && s.mode.Scan? && s.words == ["restic", "forget"] && s.word == ""
    ensures Feed(s, Render(template, spec, 3)) == EndLine(s.(words := ForgetCommand(spec)))
  {
    hide Feed, Step, IsWord, Decimal, Render, KeepWords;
    WordsOfTemplate();
    FeedPrune(s, template, spec, 3);
    var t := s.(words := s.words + if spec.prune then ["--prune"] else []);
    FeedKeepLine(t, template, spec, 5, Last, "   ", "--keep-last");
    t := t.(words := t.words + KeepWords("--keep-last", spec.keepLast));
    FeedKeepLine(t, template, spec, 7, Hourly, " ", "--keep-hourly");
    t := t.(words := t.words + KeepWords("--keep-hourly", spec.keepHourly));
    FeedKeepLine(t, template, spec, 9, Daily, "  ", "--keep-daily");
    t := t.(words := t.words + KeepWords("--keep-daily", spec.keepDaily));
    FeedKeepLine(t, template, spec, 11, Weekly, " ", "--keep-weekly");
    t := t.(words := t.words + KeepWords("--keep-weekly", spec.keepWeekly));
    FeedKeepLine(t, template, spec, 13, Monthly, "", "--keep-monthly");
    t := t.(words := t.words + KeepWords("--keep-monthly", spec.keepMonthly));
    FeedYearly(t, template, spec);
  }

  lemma FeedYearly(s: Scanner, template: seq<Piece>, spec: ForgetSpec)
    requires OptionLines(template) && s.mode.Scan? && s.word == ""
    ensures Feed(s, Render(template, spec, 15)) == EndLine(s.(words := s.words + KeepWords("--keep-yearly", spec.keepYearly)))
  {
    hide Feed, Step, IsWord, Decimal;
    var n := spec.keepYearly;
    WordsOfTemplate();
    FeedRender(s, template, spec, 15);
    FeedKeep(s, " ", "--keep-yearly", n);
    var t := Feed(s, RenderPiece(spec, template[15]));
    FeedRender(t, template, spec, 16);
    FeedTail(t);
    NothingToFeed(EndLine(t));
    DecimalsAreWords(n);
    if n > 0 {
      assert s.words + ["--keep-yearly"] + [Decimal(n)] == s.words + ["--keep-yearly", Decimal(n)];
    } else {
      assert s.words + [] == s.words;
    }
  }

  lemma NothingToFeed(s: Scanner)
    ensures Feed(s, "") == s
  {
  }

  // ----- the round trip -----

  function Positive(n: int): nat {
    if n > 0 then n else 0
  }

  /** What a schedule asks for; values that are not positive ask for nothing. */
  function RequestOf(spec: ForgetSpec): Request {
    Request(spec.prune, Positive(spec.checkPercentage), Positive(spec.keepLast), Positive(spec.keepHourly),
            Positive(spec.keepDaily), Positive(spec.keepWeekly), Positive(spec.keepMonthly), Positive(spec.keepYearly))
  }

  lemma ParseKeep(flag: string, n: int, rest: Command, r: Request)
    requires flag != "--prune" && Keep(r, flag, Positive(n)).Some?
    ensures ParseFlags(KeepWords(flag, n) + rest, r) == ParseFlags(rest, if n > 0 then Keep(r, flag, n).value else r)
  {
    if n > 0 {
      DecimalRoundTrip(n);
      var words := [flag, Decimal(n)] + rest;
      assert words[0] == flag && words[1] == Decimal(n) && words[2..] == rest;
    } else {
      assert KeepWords(flag, n) + rest == rest;
    }
  }

  lemma ParseForgetCommand(spec: ForgetSpec, check: nat)
    ensures ParseForget(ForgetCommand(spec), NOTHING.(check := check)) == Some(RequestOf(spec).(check := check))
  {
    hide Decimal, ParseDecimal, KeepWords, ParseFlags;
    var yearly := KeepWords("--keep-yearly", spec.keepYearly);
    var monthly := KeepWords("--keep-monthly", spec.keepMonthly) + yearly;
    var weekly := KeepWords("--keep-weekly", spec.keepWeekly) + monthly;
    var daily := KeepWords("--keep-daily", spec.keepDaily) + weekly;
    var hourly := KeepWords("--keep-hourly", spec.keepHourly) + daily;
    var last := KeepWords("--keep-last", spec.keepLast) + hourly;
    var prune := (if spec.prune then ["--prune"] else []) + last;
    var command := ForgetCommand(spec);
    assert command == ["restic", "forget"] + prune;
    assert command[..2] == ["restic", "forget"] && command[2..] == prune;
    var r := NOTHING.(check := check);
    ParsePrune(spec.prune, last, r);
    r := r.(prune := spec.prune);
    ParseKeep("--keep-last", spec.keepLast, hourly, r);
    r := r.(last := Positive(spec.keepLast));
    ParseKeep("--keep-hourly", spec.keepHourly, daily, r);
    r := r.(hourly := Positive(spec.keepHourly));
    ParseKeep("--keep-daily", spec.keepDaily, weekly, r);
    r := r.(daily := Positive(spec.keepDaily));
    ParseKeep("--keep-weekly", spec.keepWeekly, monthly, r);
    r := r.(weekly := Positive(spec.keepWeekly));
    ParseKeep("--keep-monthly", spec.keepMonthly, yearly, r);
    r := r.(monthly := Positive(spec.keepMonthly));
    assert yearly + [] == yearly;
    ParseKeep("--keep-yearly", spec.keepYearly, [], r);
    NoFlags(r.(yearly := Positive(spec.keepYearly)));
  }

  lemma ParsePrune(prune: bool, rest: Command, r: Request)
    requires !r.prune
    ensures ParseFlags((if prune then ["--prune"] else []) + rest, r) == ParseFlags(rest, r.(prune := prune))
  {
    if prune {
      assert (["--prune"] + rest)[1..] == rest;
    } else {
      assert [] + rest == rest;
    }
  }

  lemma NoFlags(r: Request)
    ensures ParseFlags([], r) == Some(r)
  {
  }

  /** Reading back the commands that the shell sees recovers prune, the check percentage and all six keep counts. */
  lemma ScriptRoundTrip(spec: ForgetSpec)
    ensures Commands(Script(spec)).Some? && Parse(Commands(Script(spec)).value) == Some(RequestOf(spec))
  {
    ScriptCommands(spec);
    hide Script, Commands, ForgetCommand, Decimal, ParseDecimal, ParseForget;
    var n := spec.checkPercentage;
    ParseForgetCommand(spec, Positive(n));
    if n > 0 {
      PercentageRoundTrip(n);
      assert ["restic", "check", "--read-data-subset", Decimal(n) + "%"][..3] == ["restic", "check", "--read-data-subset"];
    }
  }

  lemma PercentageRoundTrip(n: nat)
    ensures ParsePercentage(Decimal(n) + "%") == Some(n)
  {
    DecimalRoundTrip(n);
    assert (Decimal(n) + "%")[..|Decimal(n)|] == Decimal(n);
  }
}
