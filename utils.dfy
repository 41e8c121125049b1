/** The command table of frenchdict: an ordered dictionary from a human-readable
    description to the aliases that select it, long form first and short form
    second. The table is a constant and is never changed. */
module Utils {

  /** One entry of the table: its description (the dictionary key) and its
      aliases (the dictionary value). */
  datatype Command = Command(description: string, aliases: seq<string>)

  /** The table, in declaration order. Note the trailing space in the long alias
      of the French-to-English entry: it is part of the table as written. */
  const COMMANDS: seq<Command> := [
    Command("Print the list of allowable commands.", ["help", "h"]),
    Command("Translate a word from English to French.", ["french", "f"]),
    Command("Translate a word from French to English.", ["english ", "e"]),
    Command("Quit the application.", ["quit", "q"])
  ]

  /** Four entries, each with exactly two aliases: a long form of more than one
      character and a one-character short form that is its initial. */
  lemma TableShape()
    ensures |COMMANDS| == 4
    ensures forall i :: 0 <= i < |COMMANDS| ==>
      && |COMMANDS[i].aliases| == 2
      && |COMMANDS[i].aliases[0]| > 1
      && |COMMANDS[i].aliases[1]| == 1
      && COMMANDS[i].aliases[1][0] == COMMANDS[i].aliases[0][0]
  {
  }

  /** The entries come in the order help, English to French, French to English,
      quit, and their short aliases are h, f, e, q. */
  lemma TableOrder()
    ensures |COMMANDS| == 4
    ensures COMMANDS[0].aliases == ["help", "h"]
    ensures COMMANDS[1].aliases == ["french", "f"]
    ensures COMMANDS[2].aliases == ["english ", "e"]
    ensures COMMANDS[3].aliases == ["quit", "q"]
    ensures [COMMANDS[0].aliases[1], COMMANDS[1].aliases[1], COMMANDS[2].aliases[1], COMMANDS[3].aliases[1]]
         == ["h", "f", "e", "q"]
  {
  }

  /** No string is an alias twice: an accepted token names exactly one entry,
      and it is exactly one of that entry's two aliases. */
  lemma AliasesDistinct()
    ensures forall i, j, a, b ::
      0 <= i < |COMMANDS| && 0 <= j < |COMMANDS| &&
      0 <= a < |COMMANDS[i].aliases| && 0 <= b < |COMMANDS[j].aliases| &&
      COMMANDS[i].aliases[a] == COMMANDS[j].aliases[b]
      ==> i == j && a == b
  {
  }

  /** The descriptions are distinct, as the keys of a dictionary are. */
  lemma DescriptionsDistinct()
    ensures forall i, j ::
      0 <= i < |COMMANDS| && 0 <= j < |COMMANDS| &&
      COMMANDS[i].description == COMMANDS[j].description
      ==> i == j
  {
  }

  /** The long French-to-English alias carries a trailing space, so the bare
      word "english" is not an alias of any entry. */
  lemma EnglishAliasHasTrailingSpace()
    ensures COMMANDS[2].aliases[0] == "english" + " "
    ensures forall i :: 0 <= i < |COMMANDS| ==> "english" !in COMMANDS[i].aliases
  {
  }
}
