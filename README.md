# Commit Generator — a Dafny model

This project models the decision logic of a command-line tool that drafts a
git commit message with a chat model. The tool checks that a repository has
staged changes and asks for a conventional-commit type and a language. It
sends the staged diff, cut to 10000 characters, to the chat model and splits
the reply into a title and a description. It shows the draft with the diff
statistics and then commits it as is, commits an edited copy, or cancels.

Modules, one per source file, plus two shared ones:

- `Base`: `Option` and `Result` for JavaScript `undefined` and thrown errors.
- `JsText`: the JavaScript string built-ins the source uses over `seq<char>`: `trim`, `split`, `join`, `filter(Boolean)`, `parseInt` and `padEnd`.
- `Types`, `Config`: the records of `src/modules/types.ts` and the constants of `src/modules/config.ts`.
- `Git` (`src/modules/git.ts`): parsing of `--name-only` and `--numstat` output, the temporary commit-message file, and the `git commit` arguments.
- `Ai` (`src/modules/ai.ts`): diff truncation, the choice of prompts by language, and reply parsing.
- `Editor` (`src/modules/editor.ts`): which editor is run and which one is found.
- `Format` (`src/utils/format.ts`): the menu entries and the plain-text rendering of a draft.
- `Workflow` (`src/main.ts`): `main` as a method. It takes the parsed flags and a `World` record holding every collaborator's answer. It returns the trace of effects it performed, the exit status and whether the temporary file was left behind.

Three behaviours of the program that the model keeps:

- `main`'s edit path commits with `git commit -F <file>` and never calls `readCommitMessageFile`. That function is modelled on its own (`Git.ReadCommitMessageFile`).
- The temporary file is created before the `try`/`finally`, so a failed write leaves it behind. `Workflow.Run` states this case exactly: `tempLeft` holds only when the file was made and either its write or its removal failed.
- `getStagedFiles` trims the whole listing before splitting it, so whitespace at either end of the listing is lost: a first staged path `" a.ts"` comes back as `"a.ts"`.

## Model

| member | source | states |
|---|---|---|
| `Git.StagedFiles` | src/modules/git.ts:71 | every staged path it returns is non-empty and holds no line break |
| `Git.OutputLines` | src/modules/git.ts:191 | the lines kept are exactly the non-empty pieces of the trimmed output split at line breaks, and none is empty or holds a break; their order is the output's (`JsText.RemoveEmptyAppend`) |
| `Git.StagedFilesRoundTrip` | src/modules/git.ts:62-71 | parsing the `--name-only` listing of a list of non-empty, single-line paths gives back that list, in order, provided the joined paths neither start nor end with whitespace; otherwise the trim of the whole listing eats that whitespace (`" a.ts"` comes back as `"a.ts"`) |
| `Git.NothingStagedIffBlank` | src/modules/git.ts:71 | the staged list is empty exactly when git's output is whitespace only |
| `Git.SumColumns` | src/modules/git.ts:192-199 | the `forEach` loop's accumulators end as the sums of the first and second tab fields over all lines |
| `Git.DiffStatistics` | src/modules/git.ts:185-205 | `filesChanged` is the number of non-empty lines of the trimmed output; insertions and deletions are the summed first and second fields |
| `Git.ColumnTotalAppend` | src/modules/git.ts:195-199 | the totals add up over any split of the lines |
| `Git.NumstatLineFields` | src/modules/git.ts:196-198 | for any path without a tab, leading or trailing spaces included, the first two tab fields of a numstat line parse to its counts, and a `-` (binary file) counts as 0 |
| `Git.TrimmedLineFields` | src/modules/git.ts:191-198 | when `trim` cuts trailing whitespace off the last line, its first two fields still parse to its counts |
| `Git.NumstatRoundTrip` | src/modules/git.ts:185-205 | for numstat output whose paths hold no tab and no line break (git quotes any other), leading and trailing spaces allowed, one file is counted per entry and the totals are the summed counts, binary entries adding nothing |
| `Git.NumstatListingTrim` | src/modules/git.ts:191 | the lines `trim` and `split` recover from a numstat listing are its lines, the last one with its trailing whitespace cut |
| `Git.TrimmedTotals` | src/modules/git.ts:191-202 | cutting the last line's trailing whitespace leaves both column totals equal to the summed counts |
| `Git.DiffStatisticsExample` | src/modules/git.ts:191-205 | the lines `10 5 f1` and `3 abc f2` give 2 files, 13 insertions and 5 deletions |
| `Git.MessageFileText` | src/modules/git.ts:133-136 | the file holds the message alone exactly when the description is absent or empty, and otherwise the message, a blank line and the description |
| `Git.ReadCommitMessageFile` | src/modules/git.ts:159-168 | the message read back is one trimmed line, and the description is trimmed; the three lemmas below give both exactly for every file |
| `Git.ReadOneLine` | src/modules/git.ts:159-168 | a file without a line break is all message, trimmed, with an empty description |
| `Git.ReadTwoLines` | src/modules/git.ts:159-168 | a file of two lines gives the trimmed first line and an empty description |
| `Git.ReadLongFile` | src/modules/git.ts:159-168 | a file of a first line, a second line and a rest gives the trimmed first line and the trimmed rest, whatever the line ends (a `\r` before a break is trimmed off) |
| `Git.ReadBlankSeparated` | src/modules/git.ts:159-168 | a line, a blank line and a text give the trimmed line and the trimmed text |
| `Git.ReadCrlf` | src/modules/git.ts:159-168 | a file written with CRLF line ends (title, `\r\n\r\n`, body) still gives back the trimmed title and body |
| `Git.ReadAfterCreate` | src/modules/git.ts:133-166 | for a trimmed single-line message and a trimmed description, an empty one included, reading the written file gives both back |
| `Git.ReadIgnoresSecondLine` | src/modules/git.ts:160-166 | the second line of the file is dropped whatever it holds |
| `Git.CommitArgs` | src/modules/git.ts:103-115 | `commit -m <message>`, followed by `-m <description>` exactly when the description is non-empty |
| `Git.ArgsMatchMessageFile` | src/modules/git.ts:103-136 | the message git records for the `-m` arguments equals the temporary file's text for the same draft |
| `JsText.JoinEnds` | src/modules/git.ts:166 | `join` of one or more parts starts with the first part, followed by the separator when there is a second, and ends with the last part |
| `JsText.Split` | src/modules/git.ts:160 | at least one piece, no piece holds the separator, and joining the pieces gives back the input |
| `JsText.SplitJoin` | src/modules/git.ts:166 | splitting undoes joining for one or more pieces, none of which holds the separator |
| `JsText.TrimEndWithin` | src/modules/git.ts:191 | `trimEnd` of a concatenation leaves the first part whole when something of the second survives or the first ends in a non-blank |
| `JsText.Trim` | src/modules/git.ts:163 | the result neither starts nor ends with whitespace, is no longer than the input and holds only characters of the input |
| `JsText.TrimSlice` | src/modules/git.ts:163 | `trim` (`trimEnd` after `trimStart`) leaves the contiguous slice of the input that starts where the leading whitespace stops, and only whitespace follows it |
| `JsText.TrimCarriageReturn` | src/modules/git.ts:163 | a trailing carriage return is all `trim` takes from a trimmed string |
| `JsText.TrimCrlfPrefix` | src/modules/ai.ts:107-108 | a leading CRLF is all `trim` takes from a trimmed string |
| `JsText.TrimPadded` | src/modules/ai.ts:102 | trimming a trimmed string padded with whitespace gives back exactly that string |
| `JsText.RemoveEmpty` | src/modules/git.ts:71 | keeps exactly the non-empty strings, and no more of them than there were |
| `JsText.RemoveEmptyAppend` | src/modules/git.ts:71 | filtering commutes with concatenation, so the kept strings stay in their original order |
| `JsText.RemoveEmptyKeepsNonEmpty` | src/modules/git.ts:71 | a list without empty strings passes unchanged |
| `JsText.ParseIntDecimal` | src/modules/git.ts:197 | `parseInt` reads back a decimal numeral followed by a non-digit |
| `JsText.ParseInt` | src/modules/git.ts:197 | the empty string and a string that starts with no digit, sign or whitespace are `NaN`; a string that starts with a digit is the value of its leading run of digits |
| `JsText.ParseIntOfBareSign` | src/modules/git.ts:197 | a minus sign followed by no digit is `NaN` |
| `Git.FieldCountCases` | src/modules/git.ts:196-198 | a missing field counts 0; on a line without a tab, field 0 is the whole line parsed, with `NaN` counting 0, and every other field is 0 |
| `JsText.PadEnd` | src/utils/format.ts:11 | the input followed by spaces, up to the requested length or the input's own length if longer |
| `Ai.TruncateDiff` | src/modules/ai.ts:43-45 | a diff of at most 10000 characters is unchanged; a longer one becomes its first 10000 characters and the marker; never longer than 10015 |
| `Ai.TruncateIdempotent` | src/modules/ai.ts:43-45 | cutting an already cut diff changes nothing |
| `Ai.LanguagesDiffer` | src/modules/ai.ts:48-78 | the Indonesian and English system prompts always differ |
| `Ai.PromptLanguage` | src/modules/ai.ts:48-82 | the Indonesian prompts are chosen if and only if the answer is `indonesian`; every other answer gets English |
| `Ai.BuildPrompts` | src/modules/ai.ts:43-82 | the system prompt opens in the chosen language (`K` of Indonesian `Kamu`, `Y` of English `You`); the user prompt holds the cut diff right after its head and the quoted commit type after its middle; the system prompt holds the quoted type right after its head |
| `Ai.GenerateCommit` | src/modules/ai.ts:31-115 | without an API key nothing is sent and the call fails; otherwise the prompts for the inputs are sent, and a reply is parsed into the draft |
| `Ai.ParseDraft` | src/modules/ai.ts:102-109 | the message is one trimmed line that is empty only for an empty reply; a reply without a line break is all message and no description (`Ai.ParseFirstLine` covers replies with one) |
| `Ai.ParseFirstLine` | src/modules/ai.ts:102-109 | when the trimmed reply is a line, a break and a rest, the message is the trimmed line and the description the trimmed rest |
| `Ai.ParseDraftCrlf` | src/modules/ai.ts:102-109 | for a non-empty, single-line, trimmed title and a non-empty trimmed body, a reply with CRLF line ends (title, `\r\n\r\n`, body) parses into the title and body without the carriage returns |
| `Ai.ParseDraftExample` | src/modules/ai.ts:102-109 | `feat: add x`, a blank line and `What:\n- did y` give that title and that body |
| `Ai.ParseDraftOfMessageFile` | src/modules/ai.ts:102-109 | for a non-empty, single-line, trimmed title and a trimmed body, a reply laid out as title, blank line and body parses back into that title and body |
| `Editor.EditorToUse` | src/modules/editor.ts:16-17 | the explicit editor if non-empty, else `EDITOR`, else `VISUAL`, else vim; empty values count as unset |
| `Editor.OpenEditor` | src/modules/editor.ts:13-38 | runs the chosen editor and succeeds exactly when its process exits with status 0 |
| `Editor.FindAvailableEditor` | src/modules/editor.ts:69-88 | a set `EDITOR`/`VISUAL` wins without any probe; otherwise vim, then nano; it fails only when neither is installed; the result is the environment value, vim or nano |
| `Editor.FoundEditorIsLaunched` | src/main.ts:150-151 | the editor found is the one `openEditor` launches |
| `Format.FormatCommitTypeOptions` | src/utils/format.ts:7-14 | one entry per type, in order, with the type's value and its label |
| `Format.FormatLanguageOptions` | src/utils/format.ts:16-23 | one entry per language, in order, with the language's value and the label flag, space, name |
| `Format.CommitTypeLabelLayout` | src/utils/format.ts:11 | the label is emoji, space, the value padded to at least 8 characters, ` - `, the description |
| `Format.ConfiguredMenuAligned` | src/utils/format.ts:10-13 | for the 11 configured types every description starts in the same column |
| `Format.ConfiguredLanguageValues` | src/utils/format.ts:19-22 | the language menu answers `english` or `indonesian` |
| `Format.FormatCommitOutput` | src/utils/format.ts:25-30 | the text opens with the message label; for a single-line message the first line after the label is the message; it ends with the description |
| `Format.OutputLayout` | src/utils/format.ts:29 | the rendered text is exactly `Commit message:\n`, the message, `\n\nCommit description:\n` and the description, each stated by its position and the total length |
| `Format.FormatCommitOutputInjective` | src/utils/format.ts:25-30 | a single-line message and its description can be read back off the rendered text |
| `Workflow.VersionLine` | src/main.ts:46-48 | `--version` prints one line |
| `Workflow.MenusOffered` | src/main.ts:70-78 | the two menus answer the 11 configured type values and the two language values |
| `Workflow.Gates` | src/main.ts:54-81 | the repository check, the staged list, both menus and the diff, stopping at the first that fails |
| `Workflow.Drafting` | src/main.ts:88-130 | the draft request, the draft box, the statistics and the final menu, stopping at the first failure |
| `Workflow.EditBranch` | src/main.ts:144-158 | probes, editor and `commit -F`; succeeds exactly when an editor was found, exited cleanly and the commit succeeded |
| `Workflow.EditPath` | src/main.ts:138-166 | the temporary file is removed on every exit once written, a failed removal is ignored, and a failed write leaves it behind |
| `Workflow.Run` | src/main.ts:34-180 | exit status 0 exactly for help, version, or a decision reached whose branch succeeded (cancel always does); 1 otherwise |
| `Workflow.RunInOrder` | src/main.ts:53-174 | every run performs its steps in the workflow's fixed order, none twice |
| `Workflow.EarlyExits` | src/main.ts:41-66 | help and version touch no repository; outside a repository the run stops after the check; with nothing staged it stops after listing |
| `Workflow.BlankListingStops` | src/main.ts:60-66 | a whitespace-only `--name-only` output stops the run after listing, with no draft requested |
| `Workflow.RequestedAtMostOnce` | src/main.ts:88-92 | a run asks for a draft at most once |
| `Workflow.RequestAfterGates` | src/main.ts:81-92 | once the gates pass, the next step requests the draft with the diff and the two answers |
| `Workflow.NoRequestWithoutGates` | src/main.ts:55-66 | a run whose gates do not all pass never asks for a draft |
| `Workflow.NoDraftNoStatistics` | src/main.ts:88-102 | a failed draft ends the run right after the request, before the statistics |
| `Workflow.DraftThenStatistics` | src/main.ts:94-102 | a produced draft is shown and the statistics are read right after it |
| `Workflow.StatisticsThenDecision` | src/main.ts:102-130 | the final menu comes right after the statistics are shown |
| `Workflow.CancelCommitsNothing` | src/main.ts:169-173 | cancelling ends the run at the menu with no commit of either kind |
| `Workflow.UseCommitsDraft` | src/main.ts:133-136 | using the draft runs one `git commit` with the draft's message and description in the chosen repository, and no temporary file |
| `Workflow.EditWritesDraft` | src/main.ts:138-165 | editing makes the temporary file, writes the draft into it, and removes it last once written |
| `Workflow.EditCommitsFromFile` | src/main.ts:150-158 | editing commits from the file exactly when the editor ran cleanly, and never commits with `-m` |
| `Workflow.DraftSurvivesTempFile` | src/modules/git.ts:133-166 | a parsed draft written to the temporary file reads back unchanged |

## Left out

- Running processes: `runGitCommand`, the `which` probes behind `isVimAvailable`/`isNanoAvailable`, and the editor process. Their results (standard output, success, exit code) are inputs.
- The file system: `isGitRepository`'s `exists` on `<path>/.git`, `makeTempFile`, `writeTextFile`, `readTextFile` and `remove`. Each is one success flag or answer in the `World` record.
- The chat-completion HTTP call and the lazy client set-up: the reply text and the API key are inputs. The `MODEL`, `MAX_TOKENS`, `TEMPERATURE` and `BASE_URL` settings only matter to the client and are not modelled.
- Flag parsing, the Cliffy prompts and `Deno.exit`: the parsed flags and the menu answers are inputs, and the exit is the returned status. The help text is the `ShowHelp` effect, without its contents. Only the flag parsing and the help, version and header output run before `main`'s `try` (src/main.ts:35-51), so only their errors could reach the outer `import.meta.main` handler; those steps are left out, and the handler with them.
- `Logger`, colours, the boxes and the `console.log` debug lines are presentation. The draft box and the statistics box are effects that carry their data.
- `getFileContents` is unused by the tool. `test.ts` is a scratch script. `src/modules/logger.ts` is presentation only.
- Workflow.Run: the collaborators' answers are taken at the level of the services `main` calls. A `World` holds the parsed staged list, the draft and the statistics, not git's raw output and the model's raw reply. `Git` and `Ai` model the parsing. `Workflow.BlankListingStops` and `Workflow.DraftSurvivesTempFile` link the two layers.
- JsText.ParseInt: models `parseInt(_, 10)` as leading whitespace, an optional sign and a run of decimal digits. There is no `NaN` value: a missing number is `None`. JavaScript number precision above 2^53 is not modelled; counts are unbounded integers.
- JsText.Trim: uses the ECMAScript whitespace and line-terminator characters. Lengths and `substring` count characters, not UTF-16 code units.
- Ai.ParseDraft: the source splits at `/\n+/` with a limit of 2. The model cuts the reply at its first line break. Both give the same first piece, and both find a second piece exactly when the reply holds a line break.
- Git.NumstatRoundTrip: takes paths as git prints them. Git prints a path holding a tab or a line break in quotes, with C-style escapes, so a printed path holds neither; the quoting itself is not modelled.
- Git.ArgsMatchMessageFile: git's clean-up of the recorded message (stripping comments and extra whitespace) is not modelled. Only the paragraph joining of `-m` values is.
