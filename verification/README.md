# Version bumper: a Dafny model of the build hook's scan-and-rewrite

This project models the `buildStart` hook of the Vite plugin `vite-plugin-version-bumper`.
When a build starts, the hook reads two switches from the process arguments and the
environment. "Increase" is switched on by `--increase`, `--bump` or `BUMP=true`.
"Fresh" (reset) is switched on by `--fresh` or `FRESH=true`. If neither is on, the hook
returns at once. Otherwise it goes through the resolved file paths in order. For each
file it runs `content.replace(/(_v)(\d+)/g, callback)`. The callback parses the digits
of each match. Under fresh the new version is 1; under increase alone it is the current
version plus one. The callback puts `_v` and the new number in place of the match only
when the number changes. A file is written back only if some match changed. A file that
cannot be read is skipped. `totalChanges` counts the files written.

Modules, one per part of the routine:

- `Decimal` (`decimal.dfy`): ASCII digit strings, `parseInt(s, 10)` as `Parse`, and the
  rendering of a number as `Show`.
- `Flags` (`flags.dfy`): the two switches (`Mode`) and how the arguments and environment
  set them.
- `Scanner` (`scanner.dfy`): the matcher of the default pattern. It cuts a text into
  tokens, each either one character outside all matches or one match with its digit
  group. `Canonical` states declaratively what a global regex scan must produce: leftmost
  matches, a maximal digit group, no overlap. `CanonicalUnique` proves that the scan is
  the only tokenization meeting that description.
- `Bump` (`bump.dfy`): the callback and the per-file `replace`. The result is
  `FileRewrite(content, hasChange, edits)`, where `edits` is the change log
  (match → replacement).
- `Batch` (`batch.dfy`): the loop over the paths. The file system is a
  `map<string, string>`. A read fails exactly when the path is absent. `BuildStart` is
  the whole hook.
- `Examples` (`examples.dfy`): worked cases. Increase turns `_v007` into `_v8`. Fresh
  leaves `_v01` alone. Increase turns `name_v3_other_v3` into `name_v4_other_v4`. Fresh
  turns `_v1 _v7` into `_v1 _v1` with one log line. An unreadable path between two
  readable ones still gives a count of 2.

The hook itself does not recognise `--reset`: only the command-line wrapper script maps
it to `FRESH=true` before it spawns the build. The hook counts only the files it writes
(src/index.ts:70-72); it keeps no count of files scanned.

## Model

| member | source | states |
|---|---|---|
| Flags.Includes | src/index.ts:24-28 | The left-to-right search of the arguments answers true exactly when the string is one of them. |
| Flags.DeriveModeSpec | src/index.ts:23-32 | Increase is on iff `--increase` or `--bump` is an argument or `BUMP` is set to exactly `"true"`. Fresh is on iff `--fresh` is an argument or `FRESH` is exactly `"true"`. The hook does no work iff none of these holds. |
| Flags.ResetNotRecognised | src/index.ts:28 | Adding `--reset` to the arguments changes neither switch. |
| Decimal.Show | src/index.ts:61-63 | The rendering of a version is a non-empty ASCII digit string with no leading zero. |
| Decimal.ParseShow | src/index.ts:47-63 | Parsing the rendering of a number gives the number back. |
| Decimal.ShowParse | src/index.ts:47-63 | A digit string without a leading zero is the rendering of the number it parses to. |
| Decimal.LeadingZeroIgnored | src/index.ts:47 | A leading zero does not change the parsed version, so `007` parses to 7. |
| Scanner.DigitRun | src/index.ts:13 | Greedy `\d+`: the counted prefix is all digits and the next character, if any, is not a digit. |
| Scanner.Tokenize | src/index.ts:13 | The tokens spell the text back exactly, and every match holds one or more digits. |
| Scanner.TokenizeCanonical | src/index.ts:13 | The scan is leftmost and non-overlapping with a maximal digit group: no match starts at a character left as text, and no match is followed by a digit. |
| Scanner.CanonicalUnique | src/index.ts:13 | Any tokenization meeting that description is the one the scan produces. |
| Scanner.CanonicalShape | src/index.ts:44-68 | Replacing the digits of matches by other digit strings keeps a tokenization canonical. |
| Bump.BumpDigits | src/index.ts:47-66 | The replacement digits parse to the new version. They equal the matched digits exactly when the version does not change. When they differ, they carry no padding. |
| Bump.RewriteTokens | src/index.ts:44-68 | The output is the tokens with each match's digits replaced. `hasChange` holds iff some match's version changes, iff the change log is non-empty. |
| Bump.EditLog | src/index.ts:56-63 | Every log line is a changed match and its different replacement, and every changed match has its log line. |
| Bump.ChangesFrom | src/index.ts:44-56 | The positions listed are strictly increasing and are exactly the matches, from the given position on, whose version changes. |
| Bump.EditLogInOrder | src/index.ts:44-63 | The log has exactly one line per match whose version changes, in the order of those matches in the text: line j records the j-th such match and its replacement. |
| Bump.RewriteTokenizes | src/index.ts:44-68 | Scanning the output finds the input's tokens again, with each match bumped. Text outside matches is preserved and every match stays a match. |
| Bump.HasChangeIffDiffers | src/index.ts:42-68 | `hasChange` is set exactly when the rewritten text differs from the original. Replacing every match by itself gives the original back. |
| Bump.InactiveKeepsText | src/index.ts:48-54 | With neither switch on, the text comes back unchanged, with no change flagged or logged. |
| Bump.FreshWins | src/index.ts:50-54 | When fresh is on, the increase switch makes no difference, and every match of the output holds version 1. |
| Bump.FreshIdempotent | src/index.ts:50-57 | A second fresh rewrite of a fresh output changes nothing and logs nothing. |
| Bump.IncreaseStep | src/index.ts:52-63 | Increase alone replaces every match by `_v` and the unpadded rendering of its version plus one, and keeps all other text. |
| Bump.IncreaseRepeated | src/index.ts:52-63 | Increase applied k times turns every `_vN` into `_v` followed by the rendering of N+k. |
| Bump.RewriteAtText | src/index.ts:44-46 | At a character where no match starts, the replace copies the character and goes on. |
| Bump.RewriteAtMatch | src/index.ts:46-66 | At a match, the replace emits the prefix, then either the new rendering (flagging and logging the change) or the matched digits, then goes on after the match. |
| Bump.RewritePlain | src/index.ts:44-46 | Text without an underscore is copied unchanged. |
| Batch.Run | src/index.ts:36-77 | No file is created or deleted. `totalChanges` equals the number of writes. Only listed, readable files are written. Every file not written keeps its text. |
| Batch.BuildStart | src/index.ts:19-36 | When no argument or variable switches a mode on, the hook writes nothing and counts nothing. |
| Batch.WrittenOnce | src/index.ts:39-73 | Over distinct paths, no path is written twice. |
| Batch.RunOutcome | src/index.ts:39-73 | Over distinct paths, a file is written iff it is listed, readable and has a changing match. A written file ends up holding its rewritten text. |
| Batch.MissingPathSkipped | src/index.ts:39-41 | An unreadable path anywhere in the list leaves the run exactly as if it were not listed. The counter and other files are unaffected, and later paths are still processed. |
| Batch.SettledRunIsQuiet | src/index.ts:70-73 | When no listed readable file has a changing match, the run writes nothing and counts nothing. |
| Batch.InactiveRunIsQuiet | src/index.ts:48-54 | Even without the early return, a run with neither switch on would write nothing. |
| Batch.SettledStaysSettled | src/index.ts:70-73 | A file with no changing match is never written by a run in the same mode, even with its path listed more than once: its path is not among the writes, and it keeps its text and stays settled. |
| Batch.FreshRunSettles | src/index.ts:50-73 | After a fresh run, no listed readable file has a changing match left. |
| Batch.FreshRunIdempotent | src/index.ts:50-73 | A second fresh run over the same paths writes nothing, counts zero and changes no file. |
| Examples.IncreaseDropsPadding | src/index.ts:47-63 | Increase turns `_v007` into `_v8`, with one log line. |
| Examples.FreshKeepsPaddedOne | src/index.ts:50-66 | Fresh leaves `_v01` verbatim and flags no change. |
| Examples.IncreaseEveryMatch | src/index.ts:44-68 | Increase turns `name_v3_other_v3` into `name_v4_other_v4`. |
| Examples.FreshPartialDelta | src/index.ts:50-66 | Fresh turns `_v1 _v7` into `_v1 _v1`, flags the change and logs only `_v7 → _v1`. |
| Examples.ErrorIsolation | src/index.ts:39-76 | With an unreadable path between two readable files, both files are raised and the count is 2. |

## Left out

- Path globbing (`globSync`, src/index.ts:36) is a foreign library. The resolved path sequence is a parameter of `Run` and `BuildStart`.
- Console output (start banner, per-match update lines, error line, final summary; src/index.ts:34, 59-62, 75, 79-85) is not modelled. The per-match lines appear as the `edits` log of each file. The log records the match and its replacement, not the file's base name.
- User-supplied `RegExp` patterns (src/index.ts:9, 13) are not modelled. Only the default `/(_v)(\d+)/g` is.
- `parseInt` and number-to-string conversion on very long digit runs lose precision, or switch to exponent notation, in JavaScript. Versions here are unbounded naturals.
- Read failures other than a missing path (permissions, a directory, an I/O error) are folded into "the path is absent from the map". Write failures after a successful read are not modelled: writes always succeed.
- Files are held as decoded text, not bytes. `fs.readFileSync(filePath, "utf-8")` (src/index.ts:41) reads a malformed UTF-8 sequence as U+FFFD rather than failing. When such a file has a changing match, `fs.writeFileSync` (src/index.ts:71) writes the U+FFFD encoding back. So the preservation of text outside matches (Bump.RewriteTokenizes, Bump.HasChangeIffDiffers) holds for the decoded text only, not for the bytes on disk.
- Listed paths are assumed to name distinct files. `globSync(files, { absolute: true })` (src/index.ts:36) does not resolve links, so two listed paths can name one file through a symbolic or hard link. The source then reads, bumps and writes that file once per path, and under increase it ends raised by 2 with `totalChanges` 2. The map from path to text gives each path its own content, so the model raises each by 1.
- `src/cli.ts` and `bin/cli.mjs` are not part of this model. The first imports an engine that `src/index.ts` does not export. The second only sets environment variables and spawns the build.
- The plugin's `name` and `apply` fields (src/index.ts:16-17) are registration data with no behaviour.
- Batch.WrittenOnce: stated only for lists of distinct paths. With a repeated path the source reads the file again, and under increase it writes the file again. It speaks of paths, not files: two distinct paths linked to one file are two paths here.
- Batch.RunOutcome: stated only for lists of distinct paths, for the same reason.
