/** Concrete runs of the model: a confirmation and short sessions, worked out
    from the general lemmas. */
module Scenarios {
  import opened Utils
  import opened Core
  import opened Dispatch

  /** Replies "y", "N" and "" are rejected with one reminder each; "Y" answers
      true and the "n" after it is left unread. */
  lemma ConfirmationExample()
    ensures YesOrNoOutcome(["y", "N", "", "Y", "n"]) == Step(Some(true), 4, Reminders(3))
  {
    YesOrNoFirstReply(["y", "N", "", "Y", "n"], 3);
  }

  /** The long French-to-English forms: "english" is a bad command, "english "
      does nothing, and the quit after them leaves the rest unread. */
  lemma EnglishFormsExample(rest: seq<string>)
    ensures Session(["english"] + (["english "] + (["q"] + rest)))
         == SessionResult([BadCommand] + OptionListing(COMMANDS) + [Exiting], 3, true)
  {
    QuitEndsSession("q", rest);
    SpacedEnglishDoesNothing(["q"] + rest);
    BareEnglishRejected(["english "] + (["q"] + rest));
  }

  /** A bad command, then "f" whose word is "q": that "q" is translated rather
      than ending the session, which the next "q" does. */
  lemma QuitAsWordExample(bad: string, rest: seq<string>)
    requires bad !in ALLOWED
    ensures Session([bad] + (["f", "q"] + (["q"] + rest)))
         == SessionResult([BadCommand] + OptionListing(COMMANDS) + [Translation("q", "VOID"), Exiting], 4, true)
  {
    QuitEndsSession("q", rest);
    FrenchConsumesOneWord("f", "q", ["q"] + rest);
    BadCommandContinues(bad, ["f", "q"] + (["q"] + rest));
  }

  /** Help, then "e", then input that runs out: the session does not end on a
      quit and has consumed every line. */
  lemma InputRunsOutExample()
    ensures Session(["h", "e"]) == SessionResult(HelpListing(COMMANDS) + [NotImplemented], 2, false)
  {
    var s := ["h", "e"];
    assert s == [s[0]] + s[1..] && s[1..] == [s[1]] + [];
    assert Session(s[1..]) == Then([NotImplemented], 1, Session([])) by { EnglishNotImplemented([]); }
    HelpContinues("h", s[1..]);
  }
}
