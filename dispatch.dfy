/** What the top-level dispatch loop of frenchdict does, line by line and over a
    whole session, stated about the session model of module Core. */
module Dispatch {
  import opened Utils
  import opened Core

  /** The branch a token selects agrees with the table: it is rejected exactly
      when it is no entry's alias, and each entry's aliases select that entry's
      branch, except that the long French-to-English alias "english " selects
      no branch at all. */
  lemma SelectBranchFollowsTable(t: string)
    ensures var b := SelectBranch(ALLOWED, t);
      && (b == Rejected <==> forall i :: 0 <= i < |COMMANDS| ==> t !in COMMANDS[i].aliases)
      && (b == ShowHelp <==> t in COMMANDS[0].aliases)
      && (b == ToFrench <==> t in COMMANDS[1].aliases)
      && (b == ToEnglish || b == NoBranch <==> t in COMMANDS[2].aliases)
      && (b == Quit <==> t in COMMANDS[3].aliases)
      && (b == ToEnglish <==> t == "e")
      && (b == NoBranch <==> t == "english ")
  {
    TableOrder();
    var aliases := [COMMANDS[0].aliases, COMMANDS[1].aliases, COMMANDS[2].aliases, COMMANDS[3].aliases];
    assert forall i :: 0 <= i < |COMMANDS| ==> COMMANDS[i].aliases == aliases[i];
    assert t in ALLOWED <==> t in aliases[0] || t in aliases[1] || t in aliases[2] || t in aliases[3];
  }

  /** Both listings have one line per table entry, in table order, and each
      entry's description appears on its own line and on no other. */
  lemma ListingsFollowTable()
    ensures |OptionListing(COMMANDS)| == |COMMANDS| && |HelpListing(COMMANDS)| == |COMMANDS|
    ensures forall j :: 0 <= j < |COMMANDS| ==>
      && OptionListing(COMMANDS)[j].aliases == COMMANDS[j].aliases
      && HelpListing(COMMANDS)[j].aliases == COMMANDS[j].aliases
    ensures forall i, j :: 0 <= i < |COMMANDS| && 0 <= j < |COMMANDS| ==>
      && (OptionListing(COMMANDS)[j].description == COMMANDS[i].description <==> i == j)
      && (HelpListing(COMMANDS)[j].description == COMMANDS[i].description <==> i == j)
  {
    DescriptionsDistinct();
  }

  /** A line t followed by the lines rest, for any set of allowed tokens: what
      the session does is decided by the branch t selects. */
  lemma SessionOnLine(valid: seq<string>, t: string, rest: seq<string>)
    ensures var s := SessionLoop(valid, [t] + rest);
      match SelectBranch(valid, t)
      case Rejected => s == Then([BadCommand] + OptionListing(COMMANDS), 1, SessionLoop(valid, rest))
      case ShowHelp => s == Then(HelpListing(COMMANDS), 1, SessionLoop(valid, rest))
      case ToFrench =>
        if rest == [] then s == SessionResult([], 1, false)
        else s == Then([Translation(rest[0], "VOID")], 2, SessionLoop(valid, rest[1..]))
      case ToEnglish => s == Then([NotImplemented], 1, SessionLoop(valid, rest))
      case Quit => s == SessionResult([Exiting], 1, true)
      case NoBranch => s == Then([], 1, SessionLoop(valid, rest))
  {
    var input := [t] + rest;
    assert input[0] == t && input[1..] == rest;
    SessionLoopStep(valid, input);
    if SelectBranch(valid, t) == ToFrench {
      StubTranslatesOneWord(rest);
      if rest != [] {
        assert input[2..] == rest[1..];
        assert [] + [Translation(rest[0], "VOID")] == [Translation(rest[0], "VOID")];
      }
    }
  }

  /** A token that is no alias prints "Bad command! Options:" and the option
      listing, consumes that one line, and the session goes on. */
  lemma BadCommandContinues(t: string, rest: seq<string>)
    requires t !in ALLOWED
    ensures Session([t] + rest) == Then([BadCommand] + OptionListing(COMMANDS), 1, Session(rest))
  {
    SessionOnLine(ALLOWED, t, rest);
  }

  /** "help" or "h" prints the help listing and the session goes on. */
  lemma HelpContinues(t: string, rest: seq<string>)
    requires t == "help" || t == "h"
    ensures Session([t] + rest) == Then(HelpListing(COMMANDS), 1, Session(rest))
  {
    SessionOnLine(ALLOWED, t, rest);
  }

  /** "french" or "f" consumes exactly one further line W, whatever it is (a
      "q" included), reports the pair (W, "VOID") and the session goes on. */
  lemma FrenchConsumesOneWord(t: string, w: string, rest: seq<string>)
    requires t == "french" || t == "f"
    ensures Session([t, w] + rest) == Then([Translation(w, "VOID")], 2, Session(rest))
  {
    SessionOnLine(ALLOWED, t, [w] + rest);
    assert [t, w] + rest == [t] + ([w] + rest);
    assert ([w] + rest)[0] == w && ([w] + rest)[1..] == rest;
  }

  /** "french" or "f" as the last line waits for a word that never comes. */
  lemma FrenchAtEndOfInput(t: string)
    requires t == "french" || t == "f"
    ensures Session([t]) == SessionResult([], 1, false)
  {
    SessionOnLine(ALLOWED, t, []);
    assert [t] + [] == [t];
  }

  /** "e" prints that French-to-English is not implemented and the session goes
      on. */
  lemma EnglishNotImplemented(rest: seq<string>)
    ensures Session(["e"] + rest) == Then([NotImplemented], 1, Session(rest))
  {
    SessionOnLine(ALLOWED, "e", rest);
  }

  /** The bare word "english" is no alias (the table's long form carries a
      trailing space), so it is rejected as a bad command. */
  lemma BareEnglishRejected(rest: seq<string>)
    ensures Session(["english"] + rest) == Then([BadCommand] + OptionListing(COMMANDS), 1, Session(rest))
  {
    BadCommandContinues("english", rest);
  }

  /** "english " with its trailing space is accepted, but the dispatcher tests
      for "english" without it, so the line reaches no branch and prints
      nothing. */
  lemma SpacedEnglishDoesNothing(rest: seq<string>)
    ensures Session(["english "] + rest) == Then([], 1, Session(rest))
  {
    SessionOnLine(ALLOWED, "english ", rest);
  }

  /** "quit" or "q" prints "Exiting..." and ends the session: no further line
      is read. */
  lemma QuitEndsSession(t: string, rest: seq<string>)
    requires t == "quit" || t == "q"
    ensures Session([t] + rest) == SessionResult([Exiting], 1, true)
  {
    assert SelectBranch(ALLOWED, t) == Quit;
    SessionOnLine(ALLOWED, t, rest);
  }

  /** One call of the parser prints "Exiting..." exactly when it exits, and it
      exits exactly on a line that selects the quit branch; when the input runs
      out it has consumed all of it. */
  lemma ParserExits(valid: seq<string>, input: seq<string>)
    ensures var p := ParserOutcome(valid, input);
      && (p.value.None? ==> p.consumed == |input| && Exiting !in p.out)
      && (p.value == Some(Continue) ==> Exiting !in p.out)
      && (p.value == Some(Exit) <==> |input| > 0 && SelectBranch(valid, input[0]) == Quit)
      && (p.value == Some(Exit) ==> p == Step(Some(Exit), 1, [Exiting]))
  {
    if |input| > 0 && SelectBranch(valid, input[0]) == ToFrench {
      FrenchTranslationPrintsReminders(StubLookup, input[1..]);
    }
  }

  /** Over a whole session: it ends on a quit exactly when it prints
      "Exiting...", which is then its last message and printed once, and the
      last line it consumed is "quit" or "q"; otherwise it consumed all the
      input. */
  lemma {:induction false} SessionEndsAtQuit(input: seq<string>)
    ensures var r := Session(input);
      && (r.quit ==>
            && 1 <= r.consumed
            && (input[r.consumed - 1] == "quit" || input[r.consumed - 1] == "q")
            && |r.out| > 0 && r.out[|r.out| - 1] == Exiting)
      && (!r.quit ==> r.consumed == |input|)
      && (Exiting in r.out <==> r.quit)
      && (forall j :: 0 <= j < |r.out| - 1 ==> r.out[j] != Exiting)
    decreases |input|
  {
    var p := ParserOutcome(ALLOWED, input);
    SessionLoopStep(ALLOWED, input);
    ParserExits(ALLOWED, input);
    if p.value == Some(Continue) {
      var tail := input[p.consumed..];
      SessionEndsAtQuit(tail);
      var rest := Session(tail);
      assert Session(input) == Then(p.out, p.consumed, rest);
      if rest.quit {
        assert input[p.consumed + rest.consumed - 1] == tail[rest.consumed - 1];
      }
      ExitingOnlyLast(p.out, rest.out);
    }
  }

  /** "Exiting..." absent from a, and at most last in b, is at most last in
      a + b. */
  lemma ExitingOnlyLast(a: seq<Message>, b: seq<Message>)
    requires Exiting !in a
    requires forall j :: 0 <= j < |b| - 1 ==> b[j] != Exiting
    ensures forall j :: 0 <= j < |a + b| - 1 ==> (a + b)[j] != Exiting
    ensures Exiting in a + b <==> Exiting in b
  {
    forall j | 0 <= j < |a + b| - 1
      ensures (a + b)[j] != Exiting
    {
      if j >= |a| {
        assert (a + b)[j] == b[j - |a|];
      }
    }
  }

  /** Once the parser has returned, lines after the ones it consumed do not
      change what it did. */
  lemma ParserIgnoresLaterInput(valid: seq<string>, input: seq<string>, more: seq<string>)
    requires ParserOutcome(valid, input).value.Some?
    ensures ParserOutcome(valid, input + more) == ParserOutcome(valid, input)
  {
    assert (input + more)[0] == input[0];
    assert (input + more)[1..] == input[1..] + more;
    if SelectBranch(valid, input[0]) == ToFrench {
      FrenchTranslationIgnoresLaterInput(StubLookup, input[1..], more);
    }
  }

  /** A session that ended on a quit has read nothing past the quit command:
      lines after it change nothing. */
  lemma {:induction false} SessionIgnoresInputAfterQuit(valid: seq<string>, input: seq<string>, more: seq<string>)
    requires SessionLoop(valid, input).quit
    ensures SessionLoop(valid, input + more) == SessionLoop(valid, input)
    decreases |input|
  {
    var p := ParserOutcome(valid, input);
    SessionLoopStep(valid, input);
    ParserIgnoresLaterInput(valid, input, more);
    if p.value == Some(Continue) {
      var tail := input[p.consumed..];
      calc {
        SessionLoop(valid, input + more);
        { SessionLoopStep(valid, input + more); }
        Then(p.out, p.consumed, SessionLoop(valid, (input + more)[p.consumed..]));
        { assert (input + more)[p.consumed..] == tail + more; }
        Then(p.out, p.consumed, SessionLoop(valid, tail + more));
        { SessionIgnoresInputAfterQuit(valid, tail, more); }
        Then(p.out, p.consumed, SessionLoop(valid, tail));
      }
    } else {
      SessionLoopStep(valid, input + more);
    }
  }
}
