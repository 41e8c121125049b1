/** The interactive session of frenchdict: the yes/no confirmation reader, the
    English-to-French translation prompt, the top-level command dispatcher and
    the loop that drives it.

    Terminal input is the sequence of lines the user types; terminal output is
    the sequence of messages the program prints. Every routine that reads input
    is given the lines not yet read and reports a Step: the value it returns,
    the number of lines it consumed and the messages it printed. Each routine is
    a method with a loop, proved equal to a function that specifies it; the
    properties of the routines are lemmas about those functions. */
module Core {
  import opened Utils

  datatype Option<T> = None | Some(value: T)

  /** One printed message, one constructor per print call of the program. */
  datatype Message =
    | Reminder                                              // 'Type "Y" or "n".'
    | BadCommand                                            // "Bad command! Options:"
    | OptionLine(aliases: seq<string>, description: string) // one entry, aliases first
    | HelpLine(description: string, aliases: seq<string>)   // one entry, description first
    | Translation(word: string, translation: string)        // "The translation of 'w' is 't'."
    | NotImplemented                                        // French-to-English is not implemented
    | Exiting                                               // "\nExiting..."

  /** What a reading routine did: the value it returned (None when the input ran
      out before it could return), how many lines it consumed, what it printed. */
  datatype Step<T> = Step(value: Option<T>, consumed: nat, out: seq<Message>)

  /** A step preceded by n consumed lines that printed out. */
  function Prepend<T>(out: seq<Message>, n: nat, s: Step<T>): Step<T> {
    Step(s.value, n + s.consumed, out + s.out)
  }

  function Reminders(n: nat): seq<Message> {
    seq(n, _ => Reminder)
  }

  // ---------------------------------------------------------------------------
  // yes_or_no: read lines until one is exactly "Y" (true) or exactly "n" (false)
  // ---------------------------------------------------------------------------

  predicate IsReply(line: string) {
    line == "Y" || line == "n"
  }

  function YesOrNoOutcome(input: seq<string>): (r: Step<bool>)
    ensures r.consumed <= |input|
    ensures r.value.Some? ==> 1 <= r.consumed
  {
    if |input| == 0 then Step(None, 0, [])
    else if input[0] == "Y" then Step(Some(true), 1, [])
    else if input[0] == "n" then Step(Some(false), 1, [])
    else Prepend([Reminder], 1, YesOrNoOutcome(input[1..]))
  }

  /** When line k is the first reply that is exactly "Y" or "n", the reader
      answers true for "Y" and false for "n", consumes lines 0..k and no more,
      and prints one reminder per rejected line before it. */
  lemma {:induction false} YesOrNoFirstReply(input: seq<string>, k: nat)
    requires k < |input| && IsReply(input[k])
    requires forall j :: 0 <= j < k ==> !IsReply(input[j])
    ensures YesOrNoOutcome(input) == Step(Some(input[k] == "Y"), k + 1, Reminders(k))
  {
    if k > 0 {
      YesOrNoFirstReply(input[1..], k - 1);
      assert Reminders(k) == [Reminder] + Reminders(k - 1);
    }
  }

  /** When no line is exactly "Y" or "n", the reader consumes all of them,
      printing one reminder for each, and never returns. */
  lemma {:induction false} YesOrNoNoReply(input: seq<string>)
    requires forall j :: 0 <= j < |input| ==> !IsReply(input[j])
    ensures YesOrNoOutcome(input) == Step(None, |input|, Reminders(|input|))
  {
    if |input| > 0 {
      YesOrNoNoReply(input[1..]);
      assert Reminders(|input|) == [Reminder] + Reminders(|input| - 1);
    }
  }

  /** Once the reader has returned, lines after the ones it consumed do not
      change what it did: it never reads past its reply. */
  lemma {:induction false} YesOrNoIgnoresLaterInput(input: seq<string>, more: seq<string>)
    requires YesOrNoOutcome(input).value.Some?
    ensures YesOrNoOutcome(input + more) == YesOrNoOutcome(input)
  {
    assert (input + more)[0] == input[0];
    if !IsReply(input[0]) {
      assert (input + more)[1..] == input[1..] + more;
      YesOrNoIgnoresLaterInput(input[1..], more);
    }
  }

  method YesOrNo(input: seq<string>) returns (r: Step<bool>)
    ensures r == YesOrNoOutcome(input)
  {
    var i := 0;
    var out: seq<Message> := [];
    while i < |input|
      invariant 0 <= i <= |input|
      invariant YesOrNoOutcome(input) == Prepend(out, i, YesOrNoOutcome(input[i..]))
    {
      var cont := input[i];
      assert input[i..][1..] == input[i + 1..];
      i := i + 1;
      if cont == "Y" {
        return Step(Some(true), i, out);
      }
      if cont == "n" {
        return Step(Some(false), i, out);
      }
      out := out + [Reminder];
    }
    assert out + [] == out;
    return Step(None, i, out);
  }

  // ---------------------------------------------------------------------------
  // get_french_translation: read an English word and look up its translation;
  // on a miss, ask whether to try another word
  // ---------------------------------------------------------------------------

  /** The lookup the program performs: a placeholder that translates every word
      as "VOID" (no dictionary is consulted). */
  function StubLookup(word: string): Option<string> {
    Some("VOID")
  }

  /** The translation prompt for a given lookup: None from the lookup is a miss,
      after which a yes/no reply decides between another word and giving up
      with "N/A". */
  function FrenchTranslationOutcome(lookup: string -> Option<string>, input: seq<string>): (r: Step<(string, string)>)
    ensures r.consumed <= |input|
    ensures r.value.Some? ==> 1 <= r.consumed
    decreases |input|
  {
    if |input| == 0 then Step(None, 0, [])
    else
      var word := input[0];
      match lookup(word)
      case Some(translated) => Step(Some((word, translated)), 1, [])
      case None =>
        var retry := YesOrNoOutcome(input[1..]);
        match retry.value
        case None => Step(None, 1 + retry.consumed, retry.out)
        case Some(again) =>
          if again then Prepend(retry.out, 1 + retry.consumed, FrenchTranslationOutcome(lookup, input[1 + retry.consumed..]))
          else Step(Some((word, "N/A")), 1 + retry.consumed, retry.out)
  }

  /** Whatever the lookup, the prompt returns a word together with either that
      word's translation or, after a miss, "N/A". */
  lemma {:induction false} FrenchTranslationSound(lookup: string -> Option<string>, input: seq<string>)
    ensures var r := FrenchTranslationOutcome(lookup, input);
      r.value.Some? ==>
        || lookup(r.value.value.0) == Some(r.value.value.1)
        || (lookup(r.value.value.0).None? && r.value.value.1 == "N/A")
    decreases |input|
  {
    if |input| > 0 && lookup(input[0]).None? {
      var retry := YesOrNoOutcome(input[1..]);
      if retry.value == Some(true) {
        FrenchTranslationSound(lookup, input[1 + retry.consumed..]);
      }
    }
  }

  /** The word the prompt returns is one of the lines it consumed. */
  lemma {:induction false} FrenchTranslationWordWasRead(lookup: string -> Option<string>, input: seq<string>)
    ensures var r := FrenchTranslationOutcome(lookup, input);
      r.value.Some? ==> r.value.value.0 in input[..r.consumed]
    decreases |input|
  {
    if |input| > 0 && lookup(input[0]).None? {
      var retry := YesOrNoOutcome(input[1..]);
      var n := 1 + retry.consumed;
      assert input[0] == input[..n][0];
      if retry.value == Some(true) {
        var rest := input[n..];
        FrenchTranslationWordWasRead(lookup, rest);
        var r' := FrenchTranslationOutcome(lookup, rest);
        if r'.value.Some? {
          assert rest[..r'.consumed] == input[..n + r'.consumed][n..];
        }
      }
    }
  }

  /** The prompt prints nothing but the reminders of the yes/no reader. */
  lemma {:induction false} FrenchTranslationPrintsReminders(lookup: string -> Option<string>, input: seq<string>)
    ensures forall m :: m in FrenchTranslationOutcome(lookup, input).out ==> m == Reminder
    decreases |input|
  {
    if |input| > 0 && lookup(input[0]).None? {
      var retry := YesOrNoOutcome(input[1..]);
      YesOrNoReminders(input[1..]);
      if retry.value == Some(true) {
        FrenchTranslationPrintsReminders(lookup, input[1 + retry.consumed..]);
      }
    }
  }

  /** The yes/no reader prints nothing but reminders. */
  lemma {:induction false} YesOrNoReminders(input: seq<string>)
    ensures forall m :: m in YesOrNoOutcome(input).out ==> m == Reminder
  {
    if |input| > 0 && !IsReply(input[0]) {
      YesOrNoReminders(input[1..]);
    }
  }

  /** A lookup hit ends the prompt after one line, with no confirmation asked. */
  lemma FrenchTranslationHit(lookup: string -> Option<string>, input: seq<string>)
    requires |input| > 0 && lookup(input[0]).Some?
    ensures FrenchTranslationOutcome(lookup, input) == Step(Some((input[0], lookup(input[0]).value)), 1, [])
  {
  }

  /** With the placeholder lookup, the prompt consumes exactly one line W and
      returns (W, "VOID"): the retry branch never runs, so "N/A" is never
      returned and no confirmation is ever asked. */
  lemma StubTranslatesOneWord(input: seq<string>)
    ensures var r := FrenchTranslationOutcome(StubLookup, input);
      && r.out == []
      && (|input| == 0 ==> r == Step(None, 0, []))
      && (|input| > 0 ==> r == Step(Some((input[0], "VOID")), 1, []))
      && (r.value.Some? ==> r.value.value.1 != "N/A")
  {
  }

  /** Once the prompt has returned, lines after the ones it consumed do not
      change what it did. */
  lemma {:induction false} FrenchTranslationIgnoresLaterInput(lookup: string -> Option<string>, input: seq<string>, more: seq<string>)
    requires FrenchTranslationOutcome(lookup, input).value.Some?
    ensures FrenchTranslationOutcome(lookup, input + more) == FrenchTranslationOutcome(lookup, input)
    decreases |input|
  {
    assert (input + more)[0] == input[0];
    assert (input + more)[1..] == input[1..] + more;
    if lookup(input[0]).None? {
      var retry := YesOrNoOutcome(input[1..]);
      YesOrNoIgnoresLaterInput(input[1..], more);
      if retry.value == Some(true) {
        assert (input + more)[1 + retry.consumed..] == input[1 + retry.consumed..] + more;
        FrenchTranslationIgnoresLaterInput(lookup, input[1 + retry.consumed..], more);
      }
    }
  }

  method GetFrenchTranslation(lookup: string -> Option<string>, input: seq<string>) returns (r: Step<(string, string)>)
    ensures r == FrenchTranslationOutcome(lookup, input)
  {
    var i := 0;
    var out: seq<Message> := [];
    while i < |input|
      invariant 0 <= i <= |input|
      invariant FrenchTranslationOutcome(lookup, input) == Prepend(out, i, FrenchTranslationOutcome(lookup, input[i..]))
      decreases |input| - i
    {
      ghost var before, rest := out, input[i..];
      var word := input[i];
      var translatedWord := lookup(word);
      i := i + 1;
      if translatedWord.Some? {
        return Step(Some((word, translatedWord.value)), i, out);
      }
      assert rest[1..] == input[i..];
      var retry := YesOrNo(input[i..]);
      out := out + retry.out;
      i := i + retry.consumed;
      if retry.value.None? {
        return Step(None, i, out);
      }
      if !retry.value.value {
        return Step(Some((word, "N/A")), i, out);
      }
      assert rest[1 + retry.consumed..] == input[i..];
      PrependTwice(before, i - retry.consumed - 1, retry.out, 1 + retry.consumed, FrenchTranslationOutcome(lookup, input[i..]));
    }
    assert out + [] == out;
    return Step(None, i, out);
  }

  lemma PrependTwice<T>(a: seq<Message>, m: nat, b: seq<Message>, n: nat, s: Step<T>)
    ensures Prepend(a, m, Prepend(b, n, s)) == Prepend(a + b, m + n, s)
  {
    assert a + (b + s.out) == (a + b) + s.out;
  }

  // ---------------------------------------------------------------------------
  // main and command_line_parser: the top-level dispatch loop
  // ---------------------------------------------------------------------------

  /** The tokens main accepts: every alias of every entry, in table order. */
  function AllowableCommands(table: seq<Command>): seq<string> {
    if |table| == 0 then [] else table[0].aliases + AllowableCommands(table[1..])
  }

  /** A token is allowed exactly when it is an alias of some entry. */
  lemma {:induction false} AllowableCommandsAreAliases(table: seq<Command>, t: string)
    ensures t in AllowableCommands(table) <==> exists i :: 0 <= i < |table| && t in table[i].aliases
  {
    if |table| > 0 {
      AllowableCommandsAreAliases(table[1..], t);
      if t in AllowableCommands(table[1..]) {
        var i :| 0 <= i < |table[1..]| && t in table[1..][i].aliases;
        assert t in table[i + 1].aliases;
      }
      assert forall i :: 1 <= i < |table| ==> table[i] == table[1..][i - 1];
    }
  }

  /** The branch of the dispatcher a line selects. */
  datatype Branch = Rejected | ShowHelp | ToFrench | ToEnglish | Quit | NoBranch

  function SelectBranch(valid: seq<string>, command: string): Branch {
    if command !in valid then Rejected
    else if command in ["help", "h"] then ShowHelp
    else if command in ["french", "f"] then ToFrench
    else if command in ["english", "e"] then ToEnglish
    else if command in ["quit", "q"] then Quit
    else NoBranch
  }

  /** The listing printed after "Bad command! Options:": each entry's aliases
      followed by its description, in table order. */
  function OptionListing(table: seq<Command>): seq<Message> {
    seq(|table|, i requires 0 <= i < |table| => OptionLine(table[i].aliases, table[i].description))
  }

  /** The listing printed for help: each entry's description followed by its
      aliases, in table order. */
  function HelpListing(table: seq<Command>): seq<Message> {
    seq(|table|, i requires 0 <= i < |table| => HelpLine(table[i].description, table[i].aliases))
  }

  /** Whether command_line_parser returned normally or exited the program. */
  datatype Control = Continue | Exit

  /** One call of command_line_parser: read a command and act on it. */
  function ParserOutcome(valid: seq<string>, input: seq<string>): (r: Step<Control>)
    ensures r.consumed <= |input|
    ensures r.value.Some? ==> 1 <= r.consumed
  {
    if |input| == 0 then Step(None, 0, [])
    else
      match SelectBranch(valid, input[0])
      case Rejected => Step(Some(Continue), 1, [BadCommand] + OptionListing(COMMANDS))
      case ShowHelp => Step(Some(Continue), 1, HelpListing(COMMANDS))
      case ToFrench =>
        var t := FrenchTranslationOutcome(StubLookup, input[1..]);
        (match t.value
         case None => Step(None, 1 + t.consumed, t.out)
         case Some(pair) => Step(Some(Continue), 1 + t.consumed, t.out + [Translation(pair.0, pair.1)]))
      case ToEnglish => Step(Some(Continue), 1, [NotImplemented])
      case Quit => Step(Some(Exit), 1, [Exiting])
      case NoBranch => Step(Some(Continue), 1, [])
  }

  method CommandLineParser(valid: seq<string>, input: seq<string>) returns (r: Step<Control>)
    ensures r == ParserOutcome(valid, input)
  {
    if |input| == 0 {
      return Step(None, 0, []);
    }
    var command := input[0];
    if command !in valid {
      var out := [BadCommand];
      for k := 0 to |COMMANDS|
        invariant out == [BadCommand] + OptionListing(COMMANDS[..k])
      {
        out := out + [OptionLine(COMMANDS[k].aliases, COMMANDS[k].description)];
      }
      assert COMMANDS[..|COMMANDS|] == COMMANDS;
      r := Step(Some(Continue), 1, out);
    } else if command in ["help", "h"] {
      var out := [];
      for k := 0 to |COMMANDS|
        invariant out == HelpListing(COMMANDS[..k])
      {
        out := out + [HelpLine(COMMANDS[k].description, COMMANDS[k].aliases)];
      }
      assert COMMANDS[..|COMMANDS|] == COMMANDS;
      r := Step(Some(Continue), 1, out);
    } else if command in ["french", "f"] {
      var t := GetFrenchTranslation(StubLookup, input[1..]);
      if t.value.None? {
        r := Step(None, 1 + t.consumed, t.out);
      } else {
        var (inputtedWord, translation) := t.value.value;
        r := Step(Some(Continue), 1 + t.consumed, t.out + [Translation(inputtedWord, translation)]);
      }
    } else if command in ["english", "e"] {
      r := Step(Some(Continue), 1, [NotImplemented]);
    } else if command in ["quit", "q"] {
      r := Step(Some(Exit), 1, [Exiting]);
    } else {
      r := Step(Some(Continue), 1, []);
    }
  }

  /** The outcome of a whole session: everything printed, the number of lines
      consumed, and whether it ended on a quit command (false: the input ran
      out first). */
  datatype SessionResult = SessionResult(out: seq<Message>, consumed: nat, quit: bool)

  /** A session result preceded by n consumed lines that printed out. */
  function Then(out: seq<Message>, n: nat, s: SessionResult): SessionResult {
    SessionResult(out + s.out, n + s.consumed, s.quit)
  }

  lemma ThenTwice(a: seq<Message>, m: nat, b: seq<Message>, n: nat, s: SessionResult)
    ensures Then(a, m, Then(b, n, s)) == Then(a + b, m + n, s)
  {
    assert a + (b + s.out) == (a + b) + s.out;
  }

  function SessionLoop(valid: seq<string>, input: seq<string>): (r: SessionResult)
    ensures r.consumed <= |input|
    decreases |input|
  {
    var p := ParserOutcome(valid, input);
    match p.value
    case None => SessionResult(p.out, p.consumed, false)
    case Some(Exit) => SessionResult(p.out, p.consumed, true)
    case Some(Continue) =>
      Then(p.out, p.consumed, SessionLoop(valid, input[p.consumed..]))
  }

  /** One turn of the loop: the session is the parser's step followed, when the
      parser returned normally, by the session on the remaining lines. */
  lemma SessionLoopStep(valid: seq<string>, input: seq<string>)
    ensures var p := ParserOutcome(valid, input);
      SessionLoop(valid, input) ==
        if p.value == Some(Continue) then Then(p.out, p.consumed, SessionLoop(valid, input[p.consumed..]))
        else SessionResult(p.out, p.consumed, p.value == Some(Exit))
  {
  }

  /** The tokens main accepts, written out: every alias of the table, in table
      order (AllowableCommandsOfTable proves it is what main computes). */
  const ALLOWED: seq<string> := ["help", "h", "french", "f", "english ", "e", "quit", "q"]

  /** Flattening the table gives exactly the aliases, in table order. */
  lemma {:induction false} AllowableCommandsOfTable()
    ensures AllowableCommands(COMMANDS) == ALLOWED
  {
    var t := COMMANDS;
    assert t[1..][1..][1..][1..] == [];
    assert AllowableCommands(t[1..][1..][1..]) == ["quit", "q"];
    assert AllowableCommands(t[1..][1..]) == ["english ", "e", "quit", "q"];
    assert AllowableCommands(t[1..]) == ["french", "f", "english ", "e", "quit", "q"];
  }

  /** A session as main runs it: the parser is called over and over with every
      alias of the table as the allowed tokens. */
  function Session(input: seq<string>): SessionResult {
    SessionLoop(ALLOWED, input)
  }

  method RunSession(input: seq<string>) returns (r: SessionResult)
    ensures r == Session(input)
  {
    var allowableCommands := AllowableCommands(COMMANDS);
    AllowableCommandsOfTable();
    var i := 0;
    var out: seq<Message> := [];
    while i < |input|
      invariant 0 <= i <= |input|
      invariant Session(input) == Then(out, i, SessionLoop(allowableCommands, input[i..]))
      decreases |input| - i
    {
      ghost var before, rest := out, input[i..];
      var p := CommandLineParser(allowableCommands, input[i..]);
      SessionLoopStep(allowableCommands, rest);
      out := out + p.out;
      i := i + p.consumed;
      if p.value.None? {
        return SessionResult(out, i, false);
      }
      if p.value == Some(Exit) {
        return SessionResult(out, i, true);
      }
      assert rest[p.consumed..] == input[i..];
      ThenTwice(before, i - p.consumed, p.out, p.consumed, SessionLoop(allowableCommands, input[i..]));
    }
    assert out + [] == out;
    return SessionResult(out, i, false);
  }
}
