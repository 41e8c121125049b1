# frenchdict: the command-line session, modelled in Dafny

frenchdict is an interactive command-line tool that is meant to become a
French/English dictionary. Its code has three parts:

- a constant command table;
- a top-level prompt that dispatches one command per line;
- a yes/no confirmation reader.

This project models that code and proves what it does. The English-to-French
command reads one word. It reports the placeholder translation `"VOID"`,
because no dictionary is consulted yet. The French-to-English command's short
alias `e` reports that it is not implemented. Its long alias `"english "` is
accepted but does nothing.

Terminal input is modelled as the sequence of lines the user types. Terminal
output is modelled as the sequence of messages the program prints, with one
`Message` constructor per `print` call. Each routine that reads input is
given the lines not yet read. It yields a `Step`: the value it returns, the
number of lines it consumed, and the messages it printed. The value is `None`
when the input runs out first.

- `utils.dfy` (module `Utils`) holds the command table `COMMANDS`. Its entries
  are description/alias-list pairs in declaration order. The lemmas state its
  shape: four entries, each with two aliases, and no alias used twice. They
  also show that the long French-to-English alias ends in a trailing space.
- `core.dfy` (module `Core`) holds the four routines of the program. Each one
  is a method with a loop, as the source has it:
  - `YesOrNo`
  - `GetFrenchTranslation`
  - `CommandLineParser`
  - `RunSession` (the `main` loop)

  Each method is proved equal to a function that specifies it:
  `YesOrNoOutcome`, `FrenchTranslationOutcome`, `ParserOutcome` and
  `Session`. The routines' properties are proved about those functions.
  `GetFrenchTranslation` takes the word lookup as a parameter, so its retry
  branch (a miss, then a yes/no question) is modelled in full. The program
  itself always passes `StubLookup`, which translates every word as `"VOID"`.
  `StubTranslatesOneWord` proves that, with this lookup, the retry branch
  never runs.
- `dispatch.dfy` (module `Dispatch`) states facts about `command_line_parser`
  and `main` in `frenchdict/core.py`: what one line does at top level and what
  a whole session does. Among the facts proved:
  - a session ends exactly at the first top-level `quit`/`q`;
  - a `q` read as the word after `f` is translated and does not end the
    session;
  - nothing after the quit is read.
- `scenarios.dfy` (module `Scenarios`) works out short concrete runs of
  `yes_or_no` and `main` from those lemmas.

The code has no dictionary and no translation sub-modes. It prints no command
listing at start-up, and it does not repeat a rejected token.

The dispatcher prints the two listings in different orders: aliases before
the description after a bad command, the description before the aliases for
`help`. `OptionLine` and `HelpLine` keep that difference.

The allowed tokens that `main` computes by flattening the table are written
out as `Core.ALLOWED`. `AllowableCommandsOfTable` proves that list equal to
the flattening. `Session` runs the parser over that list, and `RunSession`
computes it from the table as `main` does.

## Model

| member | source | states |
|---|---|---|
| `Utils.TableShape` | frenchdict/utils.py:3-6 | the table has four entries; each has exactly two aliases, a long form first and a one-character short form second, and the short form is the initial of the long form |
| `Utils.TableOrder` | frenchdict/utils.py:3-6 | entries in declaration order help, English to French, French to English, quit; the short aliases are h, f, e, q |
| `Utils.AliasesDistinct` | frenchdict/utils.py:3-6 | the eight aliases are pairwise distinct, so an accepted token names exactly one entry |
| `Utils.DescriptionsDistinct` | frenchdict/utils.py:3-6 | the four descriptions (the dictionary keys) are distinct |
| `Utils.EnglishAliasHasTrailingSpace` | frenchdict/utils.py:5 | the long French-to-English alias is "english" followed by a space, and the bare word "english" is no entry's alias |
| `Core.YesOrNoOutcome` | frenchdict/core.py:19-25 | the confirmation reader consumes at most the lines it is given, and at least one line whenever it answers |
| `Core.YesOrNoFirstReply` | frenchdict/core.py:19-25 | when line k is the first line exactly equal to "Y" or "n", the reader answers true for "Y" and false for "n", consumes lines 0..k and no further, and prints exactly k reminders, one per rejected line |
| `Core.YesOrNoNoReply` | frenchdict/core.py:19-25 | when no line is exactly "Y" or "n" (so "y", "N" and "" are rejected too), the reader consumes every line, prints one reminder per line and never answers |
| `Core.YesOrNoIgnoresLaterInput` | frenchdict/core.py:19-24 | once the reader has answered, appending lines after its input changes nothing: it never reads past the reply |
| `Core.YesOrNoReminders` | frenchdict/core.py:25 | the reader prints nothing but the "Type Y or n" reminder |
| `Core.YesOrNo` | frenchdict/core.py:6-25 | the loop that reads lines until "Y" or "n" computes exactly the reader's specified outcome |
| `Core.FrenchTranslationOutcome` | frenchdict/core.py:41-50 | the translation prompt consumes at most the lines it is given, and at least one line whenever it returns |
| `Core.FrenchTranslationSound` | frenchdict/core.py:41-50 | for any lookup, a returned pair is a word and its lookup result, or a word the lookup missed and "N/A" |
| `Core.FrenchTranslationWordWasRead` | frenchdict/core.py:41-50 | the returned word is one of the lines the prompt consumed |
| `Core.FrenchTranslationPrintsReminders` | frenchdict/core.py:41-50 | the prompt prints nothing but the reminders of its yes/no questions |
| `Core.FrenchTranslationHit` | frenchdict/core.py:42-46 | when the lookup finds the first word, the prompt returns that word and its translation after exactly one line, without asking anything |
| `Core.StubTranslatesOneWord` | frenchdict/core.py:41-50 | with the placeholder lookup the prompt consumes exactly one line W and returns (W, "VOID"), prints nothing, and never returns "N/A": the retry branch cannot run |
| `Core.FrenchTranslationIgnoresLaterInput` | frenchdict/core.py:41-50 | once the prompt has returned, appending lines after its input changes nothing |
| `Core.GetFrenchTranslation` | frenchdict/core.py:27-50 | the loop that reads a word, looks it up and on a miss asks whether to retry computes exactly the prompt's specified outcome |
| `Core.AllowableCommandsAreAliases` | frenchdict/core.py:79-83 | a token is in the flattened list exactly when it is an alias of some table entry |
| `Core.AllowableCommandsOfTable` | frenchdict/core.py:79-83 | flattening the table gives the eight aliases in table order: help, h, french, f, "english ", e, quit, q |
| `Core.ParserOutcome` | frenchdict/core.py:52-75 | one parser call consumes at most the lines it is given, and at least one line whenever it returns or exits |
| `Core.CommandLineParser` | frenchdict/core.py:52-75 | the parser as written (read a command, test it against the allowed tokens and the four alias pairs, print the listings entry by entry) computes exactly the specified parser step |
| `Core.SessionLoop` | frenchdict/core.py:85-87 | a session consumes no more lines than it is given |
| `Core.RunSession` | frenchdict/core.py:77-90 | main's loop, with the allowed tokens flattened from the table, computes exactly the specified session |
| `Dispatch.SelectBranchFollowsTable` | frenchdict/core.py:61-73 | a token is rejected exactly when it is no entry's alias; help, French and quit aliases select their own branches; "e" selects the not-implemented branch; "english " selects no branch |
| `Dispatch.ListingsFollowTable` | frenchdict/core.py:61-67 | both listings have one line per table entry in table order, each line carries its entry's aliases, and each description appears on its own line and on no other |
| `Dispatch.SessionOnLine` | frenchdict/core.py:60-75 | for any allowed-token list, what the session does with a line is decided by the branch the line selects: listing and go on, translate the next line and go on, not-implemented and go on, nothing and go on, or exit |
| `Dispatch.BadCommandContinues` | frenchdict/core.py:61-64 | a token that is no alias prints "Bad command! Options:" and the full listing, consumes one line, and the session continues |
| `Dispatch.HelpContinues` | frenchdict/core.py:65-67 | "help" or "h" prints the help listing, consumes one line, and the session continues |
| `Dispatch.FrenchConsumesOneWord` | frenchdict/core.py:68-70 | "french" or "f" consumes exactly one further line W, even a "q", reports the pair (W, "VOID"), and the session continues |
| `Dispatch.FrenchAtEndOfInput` | frenchdict/core.py:68-69 | "french" or "f" as the last line leaves the session waiting for a word: it does not end on a quit |
| `Dispatch.EnglishNotImplemented` | frenchdict/core.py:71-72 | "e" prints that French-to-English translation is not implemented, and the session continues |
| `Dispatch.BareEnglishRejected` | frenchdict/core.py:61-64 | the bare word "english" is rejected as a bad command with the full listing |
| `Dispatch.SpacedEnglishDoesNothing` | frenchdict/core.py:61-75 | "english " with its trailing space is accepted but reaches no branch: it consumes one line and prints nothing |
| `Dispatch.QuitEndsSession` | frenchdict/core.py:73-75 | "quit" or "q" prints "Exiting..." and ends the session; no further line is read |
| `Dispatch.ParserExits` | frenchdict/core.py:60-75 | a parser call exits exactly on a line that selects the quit branch, and then prints only "Exiting..."; otherwise it never prints "Exiting...", and running out of input means it consumed everything |
| `Dispatch.SessionEndsAtQuit` | frenchdict/core.py:85-87 | a session ends on a quit exactly when it prints "Exiting...", which is then its last message and appears once, and the last line consumed is "quit" or "q"; a session that does not quit has consumed all its input |
| `Dispatch.ParserIgnoresLaterInput` | frenchdict/core.py:52-75 | once a parser call has returned or exited, appending lines after its input changes nothing |
| `Dispatch.SessionIgnoresInputAfterQuit` | frenchdict/core.py:73-75 | a session that ended on a quit has read nothing after it: appending lines changes nothing |
| `Scenarios.ConfirmationExample` | frenchdict/core.py:19-25 | replies "y", "N" and "" each get one reminder; "Y" then answers true after four lines, and the "n" after it is not read |
| `Scenarios.EnglishFormsExample` | frenchdict/core.py:61-75 | "english" then "english " then "q": one bad-command listing, nothing for the spaced form, then "Exiting..." after three lines |
| `Scenarios.QuitAsWordExample` | frenchdict/core.py:61-75 | a bad command, then "f" with the word "q", then "q": the first "q" is translated as "VOID" and only the second ends the session |
| `Scenarios.InputRunsOutExample` | frenchdict/core.py:65-72 | "h" then "e" prints the help listing and the not-implemented message; the input then runs out without a quit |

## Left out

- Terminal I/O itself. The prompt strings that `input()` writes are not among the modelled messages. Messages are constructors, not rendered text, so the way a listing line renders its alias list is not modelled.
- The interrupt handler (`KeyboardInterrupt`) and the exit status of `sys.exit(0)`. These are signal handling and process control. A quit is modelled as a session that ends with `quit == true`.
- Running out of input. Python's `input()` would raise `EOFError`, which the program does not catch. The model reports it as a step with value `None` and a session with `quit == false`.
- The module import wiring and the `__main__` guard. They hold no logic.
- Dictionary loading, the reverse index and real word lookups. The code has none of them: translation is a TODO with a constant placeholder, modelled as `StubLookup`.

