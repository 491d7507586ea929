/** The records exchanged between the modules (src/modules/types.ts). */
module Types {
  import opened Base

  /** One conventional-commit category offered in the first menu. */
  datatype CommitType = CommitType(value: string, name: string, description: string, emoji: Option<string>)

  /** One language offered in the second menu. */
  datatype LanguageOption = LanguageOption(value: string, name: string, flag: string)

  /** A commit title and its body, as drafted or as read back from a file. */
  datatype GeneratedCommit = GeneratedCommit(message: string, description: string)

  /** A `{ name, value }` entry of a selection prompt: the label shown and the answer returned. */
  datatype MenuEntry = MenuEntry(name: string, value: string)
}
