# Problem-number extraction and solution-file scaffolding

This project models the logic of a small editor extension that scaffolds C# solution files for
coding-practice problems. When the user asks for a new solution file, the extension does three things:

- it checks the proposed file name against the identifier pattern `^[A-Za-z_]\w*$`;
- it extracts the problem number from the name, meaning the longest maximal run of ASCII digits, with the
  first run winning a tie;
- it writes `solutions/<name>.cs` with a class skeleton inside `namespace Problem<number>`, but only when
  that file does not exist yet.

Modules:

- `Wrappers`: `Option`, which stands for TypeScript's `string | undefined`.
- `DigitRuns`: the global match `/\d+/g`. `IsRun(s, i, j)` says that `s[i..j]` is a maximal run of digits.
  `SpansFrom` is the left-to-right leftmost-greedy scan, proved to return exactly the maximal runs, in order.
  `Matches` is the array that `match` returns.
- `Extractor`: `extractLongestNumber`, written as the `reduce` fold over the matches. It is proved equal to
  an independent description, `FirstLongestRun`: a maximal run that no run is longer than and that every
  earlier run is strictly shorter than. `ExtractorExamples` holds five lemmas over six concrete inputs.
- `NameValidation`: the `validateInput` callback. The regular expression is modelled as a recursive matcher
  and proved equal to a character-by-character description.
- `SolutionFile`: the template, the `Problem${codeNumber}` interpolation (which prints `undefined` when no
  digits are found), and the create-if-absent write. The write is a pure function on the folder's
  `map<string, string>` and also a method of the `SolutionsFolder` class that updates that map in place.

When no digit is found, the template interpolates `undefined` directly, so a digit-free name such as
`Solution` gets `namespace Problemundefined` (`SolutionFile.DigitFreeNameGivesUndefined`).

The validator rejects names that start with a digit, such as `1TwoSum`, although problem numbers often come
first in such names; the model keeps the pattern as written (`NameValidation.AcceptedNameShape`).

## Model

| member | source | states |
|---|---|---|
| `DigitRuns.RunEnd` | src/extension.ts:20 | greedy `\d+` from position i stops at the first non-digit (or the end), and everything it passes over is a digit |
| `DigitRuns.SpansFrom` | src/extension.ts:20 | the `/\d+/g` scan from k returns only maximal digit runs, in strictly increasing non-overlapping order, and every maximal run starting at or after k is among them |
| `DigitRuns.Matches` | src/extension.ts:20 | each match is the input's own text over a maximal digit run, and the matches' runs come in strictly left-to-right order |
| `DigitRuns.EveryRunIsMatched` | src/extension.ts:20 | the text of every maximal digit run of the input is among the matches |
| `DigitRuns.MatchesEmptyIff` | src/extension.ts:20-21 | `match` finds nothing exactly when the input has no ASCII digit |
| `Extractor.FoldLongest` | src/extension.ts:23-25 | the fold's result is the seed or one of the remaining matches, and is at least as long as the seed |
| `Extractor.Reduce` | src/extension.ts:23-25 | `reduce` without an initial value returns one of the matches |
| `Extractor.FoldLongestIsFirstLongest` | src/extension.ts:23-25 | the fold returns the first element of maximal length: nothing is longer, and everything earlier is strictly shorter (replacement only on strictly greater length) |
| `Extractor.ReduceIsFirstLongest` | src/extension.ts:23-25 | the reduced value is the first longest match of the array |
| `Extractor.ExtractLongestNumber` | src/extension.ts:19-26 | the result is `undefined` exactly when the input has no ASCII digit (the empty string included), and otherwise is one of the matches |
| `Extractor.FirstLongestRunUnique` | src/extension.ts:19-26 | the first-longest-run description picks at most one run, so it determines the answer |
| `Extractor.ExtractIsFirstLongestRun` | src/extension.ts:19-26 | a returned number is verbatim the input over a maximal digit run; no run is longer, and every earlier run is strictly shorter (first run wins ties) |
| `Extractor.ExtractFromFirstLongestRun` | src/extension.ts:19-26 | conversely, the first longest maximal run is always what is returned |
| `Extractor.ExtractIsLongestDigitString` | src/extension.ts:20-25 | a returned number is non-empty, made only of digits, and no match is longer |
| `Extractor.ExtractAllDigits` | src/extension.ts:20-25 | a non-empty all-digit input is returned whole |
| `Extractor.ExtractIdempotent` | src/extension.ts:19-26 | extracting from the extracted number returns the same number |
| `Extractor.ExtractSoleRun` | src/extension.ts:19-26 | when every digit of the input lies in one maximal run, that run is returned |
| `ExtractorExamples.LongerRunWins` | src/extension.ts:19-26 | `a12bb345c` gives `345` |
| `ExtractorExamples.FirstRunWinsTie` | src/extension.ts:23-25 | `a12b34c` gives `12` |
| `ExtractorExamples.LeadingZerosKept` | src/extension.ts:20 | `p007x` gives `007`, leading zeros kept |
| `ExtractorExamples.NoNumberWithoutDigits` | src/extension.ts:21 | `Solution` and the empty string give `undefined` |
| `ExtractorExamples.DigitsAreTheirOwnNumber` | src/extension.ts:20-25 | `42` gives `42` |
| `NameValidation.MatchesWordStarIff` | src/extension.ts:61 | the `\w*$` tail matches exactly when every character is an ASCII letter, digit or `_` |
| `NameValidation.ValidateInput` | src/extension.ts:60-63 | a name is accepted (`null`) exactly when it is non-empty, starts with an ASCII letter or `_`, and continues with ASCII letters, digits or `_`; otherwise the fixed message is returned |
| `NameValidation.AcceptedNameShape` | src/extension.ts:61 | an accepted name is non-empty, never starts with a digit, and consists only of word characters |
| `SolutionFile.NamespaceNameIsIdentifier` | src/extension.ts:69-71 | the generated `Problem${codeNumber}` passes the same identifier validation, whether the number was found or not |
| `SolutionFile.DigitFreeNameGivesUndefined` | src/extension.ts:69-78 | a name without digits yields namespace `Problemundefined`, and the file is `namespace Problemundefined` followed by the class skeleton |
| `SolutionFile.NumberBetween` | src/extension.ts:70-78 | a digit string between two digit-free texts is what extraction returns from the whole |
| `SolutionFile.TemplateHasNoDigits` | src/extension.ts:71-77 | the fixed template text (`namespace Problem`, `undefined`, the class skeleton) contains no digit |
| `SolutionFile.ContentKeepsNumber` | src/extension.ts:69-78 | extracting the number from the generated file gives the number extracted from the name (or `undefined` for both) |
| `SolutionFile.CreateIfAbsent` | src/extension.ts:67-80 | after the write, the file exists; an existing file keeps its contents, a new one holds the template, and every other file is unchanged |
| `SolutionFile.CreateIfAbsentIdempotent` | src/extension.ts:68-80 | creating the same file again, whatever the content would be, changes nothing |
| `SolutionFile.SolutionsFolder.CreateFile` | src/extension.ts:67-80 | the command's write step on the folder state: the file is `${name}.cs`, and the folder becomes the create-if-absent update with the template for that name |

## Left out

- Editor host calls are not modelled: command registration, activation and deactivation, the folder picker, the input box, opening and showing the document, and the information and error messages. They are user-interface calls with no logic to state.
- `pickOrGetWorkspaceRoot` is not modelled. It only reads the workspace folder or opens a dialog.
- The `dotnet new console` subprocess of the initialise command is not modelled, because its behaviour is outside the extension.
- The real filesystem is reduced to the solutions folder as a map from file name to contents. File names are compared as exact strings, so a case-insensitive file system, where `fs.pathExists` reports `two1.cs` as present when `Two1.cs` exists and nothing is written, is not modelled. `fs.ensureDir`, the path separators of `path.join`, UTF-8 encoding and I/O failures are not modelled either.
- The `try`/`catch` blocks are not modelled. They only forward exception messages to an error notification.
- The regular expressions are not modelled as general regular-expression semantics. Only `/\d+/g` and `/^[A-Za-z_]\w*$/` are modelled, over their ASCII classes. JavaScript's UTF-16 code units are modelled as Dafny characters, which changes nothing for these ASCII-only classes.
- The name prompt's flow is not modelled: Escape gives `undefined`, and an empty name ends the command. `SolutionsFolder.CreateFile` takes the name that was entered and does not require it to be valid, because the write step itself does not depend on validity.
