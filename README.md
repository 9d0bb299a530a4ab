# env-tool in Dafny

env-tool keeps the variables of a local `.env` file in line with two
deployment targets: a Convex deployment (`convex env list/set/remove`) and the
secrets of a Cloudflare Worker (`wrangler secret list/bulk/delete`). It also
prints a `diff` table of the keys the targets disagree on, and it generates a
TypeScript module (valibot, zod or plain types) that declares the env file's
public and private variables.

This project models the tool's core:

- `collections.dfy` (module `Collections`): the JavaScript `Record`. For keys
  that are not array indices (`"1"`, `"42"`) it keeps its keys in insertion
  order, so it is a key sequence beside a map. The
  module also models `Set` de-duplication and the filters the sync loops use.
- `text.dfy` (module `Text`): the string operations the tool relies on:
  - `split` and `join`;
  - `repeat`;
  - `toLowerCase`;
  - number formatting;
  - the default `sort` order.
- `listing.dfy` (module `Listing`): the `KEY=value` parser of `getConvexEnv`.
- `color.dfy` (module `Color`): ANSI colouring, `visibleWidth`, `padEnd` and
  `printTable`.
- `convex_sync.dfy` (module `ConvexSync`): `syncToConvex`. The deployment is a
  class `ConvexStore` holding the variables and a log of the calls made to it.
- `wrangler_sync.dfy` (module `WranglerSync`): `buildWranglerArgs`,
  `getWranglerSecrets` and `syncToWrangler`. The Worker is a class
  `WranglerStore` holding the secrets and a call log.
- `diff.dfy` (module `Diff`): `checkSyncStatus`, `formatValue` and `diffAll`.
  Console output is the sequence of lines it would log.
- `typegen.dfy` (module `Typegen`): `generateTypes` and its three generators,
  with `inferValidator` and `generateEnvDtsHint`.

Each loop of the source is a method proved to compute a specification
function. The lemmas state what the tool promises about those functions:
- the classification into added, updated and removed, with disjointness and
  ordering;
- the order and the effect of the remote calls;
- re-running a sync after it has been applied, both against the deployment's
  state and through a fresh `convex env list`, and the keys for which the
  Convex sync never settles;
- the round trip of the listing parser;
- table alignment;
- the placement of every generated line.

## Model

| member | source | states |
|---|---|---|
| Collections.Distinct | src/commands/diff.ts:47-51 | `new Set` spread back into an array: no repetitions, the same elements as the input, never longer, and in the input's order |
| Collections.DistinctFirstPlace | src/commands/diff.ts:47-51 | each element of the de-duplicated array sits at its first occurrence: the elements before it are exactly those the input holds before that occurrence |
| Collections.DistinctOfNoDup | src/utils/sync-wrangler.ts:103 | a sequence without repetitions passes through a `Set` unchanged |
| Collections.Record.Put | src/utils/sync-convex.ts:24 | `record[k] = v` keeps the record well formed, sets the value, appends a new key at the end and leaves an existing key in place |
| Collections.InsideSpec | src/utils/sync-wrangler.ts:48-56 | keeping the keys present in a set keeps exactly those, in order, without repetitions |
| Collections.OutsideSpec | src/utils/sync-wrangler.ts:48-56 | keeping the keys absent from a set keeps exactly those, in order, without repetitions |
| Collections.InsideOutsidePartition | src/utils/sync-wrangler.ts:48-56 | the present and the absent keys are disjoint and together make up every key once |
| Collections.FilterSpec | src/commands/diff.ts:76-93 | a loop that skips some keys keeps exactly the others, in order, without repetitions |
| Collections.FilterPrefixSpec | src/utils/sync-convex.ts:19-25 | after the first n entries the copied record holds the passing keys among them, in order, with their values |
| Collections.FilterRecordSpec | src/utils/sync-wrangler.ts:37-41 | the copied record holds exactly the passing keys, with their values, in the order of the original |
| Text.Split | src/utils/sync-convex.ts:75 | `split` yields at least one piece and no piece holds the separator |
| Text.JoinSplit | src/utils/sync-convex.ts:75 | joining the pieces of a split with the separator gives the string back |
| Text.SplitJoin | src/utils/typegen.ts:58 | splitting a join of lines without line breaks gives those lines back |
| Text.JoinLength | src/utils/color.ts:62-64 | a join is as long as its pieces plus one separator between each two |
| Text.Repeat | src/utils/color.ts:35 | `' '.repeat(n)` is n copies of the character |
| Text.AsciiLower | src/utils/typegen.ts:134 | lower-casing keeps the length |
| Text.LessIrreflexive | src/commands/diff.ts:76 | the default sort order never puts a string before itself |
| Text.LessTransitive | src/commands/diff.ts:76 | the default sort order is transitive |
| Text.LessTotal | src/commands/diff.ts:76 | any two different strings are ordered one way or the other |
| Text.LessAsymmetric | src/commands/diff.ts:76 | no two strings come before each other |
| Text.Sort | src/commands/diff.ts:76 | `[...keys].sort()` is a sorted permutation of the keys |
| Text.SortElements | src/commands/diff.ts:76 | sorting neither adds nor drops an element, and introduces no repetition |
| Text.SortedStrictly | src/commands/diff.ts:76 | sorted keys without repetitions are strictly increasing |
| Listing.MatchLine | src/commands/diff.ts:187-190 | a matching line is the key, `=` and the value; the key is an identifier of `[A-Z_][A-Z0-9_]*` and the value has no line terminator |
| Listing.MatchLineExactly | src/commands/diff.ts:187 | a line matches exactly when some `=` in it has an identifier before it and a single line of text after it |
| Listing.ParseLines | src/commands/diff.ts:186-191 | the parsed record is well formed, every key an identifier and every value a single line |
| Listing.ParseListing | src/commands/diff.ts:179-181 | a non-zero exit code gives the empty record |
| Listing.GetConvexEnv | src/utils/sync-convex.ts:61-83 | the loop over the output lines computes `ParseListing` of the process result |
| Listing.ParseLinesKeys | src/commands/diff.ts:186-191 | the parsed keys are the keys of the matching lines, each once, at the place of its first line |
| Listing.ParseLinesLastWins | src/commands/diff.ts:189 | a key takes the value of its last matching line |
| Listing.MatchEntryLine | src/commands/diff.ts:187 | a line `KEY=value` with an identifier key and a one-line value parses to that key and value |
| Listing.ParseEntryLines | src/commands/diff.ts:186-191 | the entry lines of some distinct keys parse back to exactly those entries, in order |
| Listing.RoundTrip | src/commands/diff.ts:173-194 | printing a record as a listing and parsing it gives the record back, when the keys are identifiers and the values single lines |
| Color.VisibleWidthBound | src/utils/color.ts:27-29 | `visibleWidth(s)` is at most the length of s, and equal to it when s holds no ESC |
| Color.StripAppend | src/utils/color.ts:24-29 | removing escape sequences distributes over a concatenation whose right part cannot continue an escape sequence |
| Color.DimWidth | src/utils/color.ts:14 | `c.dim` does not change the visible width: both codes it adds are removed |
| Color.PadEndSpec | src/utils/color.ts:32-36 | `padEnd` never truncates: the string stays a prefix and only spaces follow; it is returned unchanged when already wide enough, and otherwise the result is exactly `width` wide |
| Color.MaxCellWidth | src/utils/color.ts:53-56 | the reduce yields a width no cell exceeds, attained by some cell or 0, with a missing cell counting as empty |
| Color.NaturalWidth | src/utils/color.ts:57 | the natural width holds the header and every cell and equals one of them |
| Color.ColumnWidth | src/utils/color.ts:58 | the natural width is capped only when `width` is set and non-zero, and the cap only lowers it |
| Color.ColumnWidths | src/utils/color.ts:51-59 | one width per column, in column order |
| Color.Segments | src/utils/color.ts:68 | one separator segment per column: `─` repeated to the column's width |
| Color.PaddedCells | src/utils/color.ts:73-77 | one padded cell per column, in column order, with `''` for a missing cell |
| Color.TableLine | src/utils/color.ts:72-80 | the table has two lines more than there are rows, and line 2+i is the line of row i |
| Color.PrintTable | src/utils/color.ts:49-81 | the lines logged are the header, the dimmed separator and one line per row |
| Color.JoinWidth | src/utils/color.ts:64 | the visible width of a two-space join is the sum of the parts' widths plus two per gap |
| Color.SeparatorShape | src/utils/color.ts:68-69 | the separator holds only `─`, is as wide as the columns plus their gaps, and dimming it keeps its visible width |
| Color.TableAligned | src/utils/color.ts:49-81 | when no cap cuts a column below its natural width, the header, the separator and every data line have the same visible width |
| Color.TableRowWidth | src/utils/color.ts:72-80 | without such a cap, each data line is as wide as the columns plus their gaps |
| Color.HeaderWidth | src/utils/color.ts:62-65 | the header is as wide as the columns plus their gaps when no label is wider than its column |
| Color.RowLineWidth | src/utils/color.ts:73-78 | a data line is as wide as the columns plus their gaps when no cell is wider than its column |
| ConvexSync.KeptSpec | src/utils/sync-convex.ts:19-25 | `toSync` holds exactly the local keys that are not excluded and do not start with `CONVEX_`, with their local values, in local order |
| ConvexSync.ChangedSpec | src/utils/sync-convex.ts:38-43 | the updated keys are the kept keys the deployment holds with another value, in order, without repetitions |
| ConvexSync.ConvexPlanSpec | src/utils/sync-convex.ts:32-56 | added holds exactly the kept keys absent from the listing, updated the kept keys listed with another value, and removed the managed listed keys that are not kept; none repeats a key, added and updated keep local order and removed keeps listing order |
| ConvexSync.ConvexPlanDisjoint | src/utils/sync-convex.ts:19-56 | the three lists share no key, and none holds an excluded or `CONVEX_` key |
| ConvexSync.SetCallsSpec | src/utils/sync-convex.ts:32-44 | each set call writes the local value of a kept key the deployment lacks or holds with another value |
| ConvexSync.SetCallsCount | src/utils/sync-convex.ts:32-44 | there is one set call per added key and per updated key |
| ConvexSync.SetCallsCover | src/utils/sync-convex.ts:32-44 | every kept key that differs gets its set call |
| ConvexSync.SetCallsDistinct | src/utils/sync-convex.ts:32-44 | no key gets two set calls |
| ConvexSync.ReplaySetCalls | src/utils/sync-convex.ts:32-44 | the set calls write the local value of every differing key and change no other variable |
| ConvexSync.ReplayRemoveCalls | src/utils/sync-convex.ts:47-56 | the remove calls delete exactly the removed keys |
| ConvexSync.ConvexCallsOrder | src/utils/sync-convex.ts:32-56 | every set call precedes every remove call; there is one call per listed key, and the removes follow removed order |
| ConvexSync.ConvexSetCallsSound | src/utils/sync-convex.ts:32-44 | each set call writes an added or updated key with its local value |
| ConvexSync.ConvexSetCallsComplete | src/utils/sync-convex.ts:32-44 | every added or updated key is set exactly once, with its local value |
| ConvexSync.ConvexEffect | src/utils/sync-convex.ts:32-56 | after a non-dry sync, added and updated keys hold the local value, removed keys are gone, and every other variable is untouched |
| ConvexSync.ConvexIdempotent | src/utils/sync-convex.ts:7-59 | planning again against the deployment's variables after the calls (as a record, not re-read through the listing) finds nothing to add, update or remove |
| ConvexSync.ConvexRerun | src/utils/sync-convex.ts:7-83 | when every managed local key is an identifier with a one-line value, planning again against the parsed `convex env list` of the deployment after the calls finds nothing to add, update or remove |
| ConvexSync.ConvexUnsettled | src/utils/sync-convex.ts:32-44 | a managed local key that is not an identifier, or whose value spans lines, is added or updated again whatever the listing prints, so every run sets it again |
| ConvexSync.ConvexStore.Set | src/utils/sync-convex.ts:85-91 | `convex env set` writes the value and logs the call |
| ConvexSync.ConvexStore.Remove | src/utils/sync-convex.ts:93-99 | `convex env remove` deletes the key and logs the call |
| ConvexSync.KeepManaged | src/utils/sync-convex.ts:19-25 | the loop builds `toSync` as specified by `Kept` |
| ConvexSync.PushChanges | src/utils/sync-convex.ts:32-44 | the comparison loop returns added and updated; unless dry, it issues exactly the set calls, in order, and the store ends in their effect |
| ConvexSync.PushRemovals | src/utils/sync-convex.ts:47-56 | the removal loop returns removed; unless dry, it issues one remove per removed key, in order |
| ConvexSync.SyncToConvex | src/utils/sync-convex.ts:7-59 | the three lists are the plan whether dry or not; a dry run leaves the store untouched; otherwise it receives exactly the calls of the plan, in order, and ends in their effect |
| WranglerSync.BuildWranglerArgs | src/utils/sync-wrangler.ts:8-18 | the base arguments always come first |
| WranglerSync.BuildWranglerArgsSpec | src/utils/sync-wrangler.ts:13-17 | exactly `--env` and the mapped name are appended when an env is given and its mapping is a non-empty string; otherwise the base is returned unchanged |
| WranglerSync.SecretNames | src/utils/sync-wrangler.ts:96-106 | a failed or unparsable listing gives no names; otherwise the listed names, each once |
| WranglerSync.WranglerPlanSpec | src/utils/sync-wrangler.ts:37-64 | added: kept keys the Worker lacks; updated: kept keys it holds, whatever the value; removed: listed names that are not excluded and not local, with no prefix filter |
| WranglerSync.WranglerPlanOrder | src/utils/sync-wrangler.ts:48-64 | the lists have no repetitions; added and updated keep local order and removed keeps listing order |
| WranglerSync.WranglerPlanPartition | src/utils/sync-wrangler.ts:48-64 | added and updated split the kept keys between them, and no key is in two lists |
| WranglerSync.WranglerFailedListing | src/utils/sync-wrangler.ts:96-106 | with a failed or unparsable listing nothing is removed or updated and every kept key is added |
| WranglerSync.WranglerCallsOrder | src/utils/sync-wrangler.ts:66-75 | a non-dry sync makes one bulk upload of the whole kept record exactly when it is non-empty, then one delete per removed key, in order |
| WranglerSync.ReplayDeleteCalls | src/utils/sync-wrangler.ts:71-75 | the delete calls remove exactly their keys |
| WranglerSync.ReplayBulkThenDeletes | src/utils/sync-wrangler.ts:66-75 | the effect of the upload followed by the deletes is the upload's effect less the deleted keys |
| WranglerSync.WranglerAfter | src/utils/sync-wrangler.ts:66-75 | the Worker ends with its secrets overwritten by the kept record, less the removed keys |
| WranglerSync.WranglerEffect | src/utils/sync-wrangler.ts:66-75 | after a non-dry sync every kept key holds its local value, removed keys are gone, and every other secret is untouched |
| WranglerSync.WranglerRerun | src/utils/sync-wrangler.ts:48-64 | once the sync has been applied, a second run adds and removes nothing but lists every kept key as updated, so it uploads again |
| WranglerSync.WranglerStore.Bulk | src/utils/sync-wrangler.ts:109-138 | the bulk upload writes every entry of the record and logs the call |
| WranglerSync.WranglerStore.Delete | src/utils/sync-wrangler.ts:140-154 | `wrangler secret delete` removes the key and logs the call |
| WranglerSync.KeepUnexcluded | src/utils/sync-wrangler.ts:37-41 | the loop builds `toSync`: the local entries that are not excluded, in order |
| WranglerSync.Classify | src/utils/sync-wrangler.ts:48-56 | the comparison loop adds the kept keys the Worker lacks and updates the ones it holds |
| WranglerSync.Stale | src/utils/sync-wrangler.ts:59-64 | the removal loop collects the listed names that are neither excluded nor kept, in listing order |
| WranglerSync.DeleteAll | src/utils/sync-wrangler.ts:71-75 | one delete call per key, in order; exactly those keys are gone |
| WranglerSync.PushSecrets | src/utils/sync-wrangler.ts:66-75 | the bulk upload when anything is added or updated, then the deletes; the store ends in their effect |
| WranglerSync.SyncToWrangler | src/utils/sync-wrangler.ts:23-78 | the three lists are the plan whether dry or not; a dry run leaves the Worker untouched; otherwise it receives exactly the calls of the plan, in order, and ends in their effect |
| Diff.CheckSyncStatus | src/commands/diff.ts:130-165 | the issues are those of the key's probe, and `synced` holds exactly when there is none |
| Diff.DistinctPair | src/commands/diff.ts:148 | two `removed locally` issues pass through the `Set` as one |
| Diff.IssuesAbsentLocally | src/commands/diff.ts:141-149 | a key missing locally has at most the single issue `removed locally`, exactly when a configured target holds it |
| Diff.IssuesPresentLocally | src/commands/diff.ts:152-164 | a key present locally has `missing in convex`, `convex differs` and `missing in wrangler` each exactly in its case, never `removed locally`, none twice, and no issue when the targets agree |
| Diff.FormatValue | src/commands/diff.ts:167-171 | a missing value is a dimmed `─`; a value of at most 16 characters is kept; a longer one becomes its first six characters, `...` and its last six, 15 in all |
| Diff.FlaggedKeysSpec | src/commands/diff.ts:76-93 | the row keys are strictly increasing, and a key has a row exactly when it is known somewhere, is not excluded by the one joint pattern list, and is out of sync |
| Diff.DiffRow | src/commands/diff.ts:95-117 | a row holds the key, the formatted local value and the red list of issues; it has a `convex` cell exactly when Convex is configured and a `wrangler` cell exactly when the Worker is |
| Diff.DiffOutputShape | src/commands/diff.ts:120-127 | all in sync: one success line counting every key; otherwise the warning counting the rows, the table with one line per row in key order, and an empty line |
| Diff.DiffAll | src/commands/diff.ts:23-128 | the logged lines are `DiffOutput` of the gathered sources and the joined exclude lists |
| Diff.CollectRows | src/commands/diff.ts:76-118 | the loop over the sorted keys builds one row per key that is neither excluded nor in sync, in order |
| Typegen.SelectOutput | src/utils/typegen.ts:14-24 | `none` selects plain types and `zod` zod; any other value, or none at all, selects valibot |
| Typegen.InferValidatorSpec | src/utils/typegen.ts:133-145 | the URL validator exactly when the lower-cased key contains `url` or `endpoint`, the string validator otherwise |
| Typegen.InferValidatorIgnoresValue | src/utils/typegen.ts:133-145 | the value never influences the validator |
| Typegen.ScopeVarsSpec | src/utils/typegen.ts:11-12 | the scope filter keeps exactly the variables of the scope |
| Typegen.ScopeVarsAppend | src/utils/typegen.ts:11-12 | the scope filter of a concatenation is the concatenation of the filters, so input order is kept |
| Typegen.FieldLineShape | src/utils/typegen.ts:36-37 | a field line is two spaces and the key, then `: `, the key's validator and a comma in a schema, or `: string` in plain types (line 100) |
| Typegen.Hint | src/utils/typegen.ts:117-131 | the hint is ten comment lines followed by an empty line |
| Typegen.FixedLines | src/utils/typegen.ts:27-115 | besides the field lines there are 22 lines with a schema library and 17 in plain types |
| Typegen.OutputLinesShape | src/utils/typegen.ts:27-59 | one field line per public variable inside the public block, in order, then one per private variable inside the private block, and the hint lines at the end |
| Typegen.PublicBlockAt | src/utils/typegen.ts:34-40 | the public block follows the preamble: opening line, one field line per public variable, closing line, empty line |
| Typegen.PrivateBlockAt | src/utils/typegen.ts:43-49 | the private block follows the public one in the same form |
| Typegen.HintAtEnd | src/utils/typegen.ts:56 | the hint lines end the output |
| Typegen.OutputLinesFields | src/utils/typegen.ts:35-47 | a variable has a field line exactly when it is public or private |
| Typegen.TypesTextEndsWithNewline | src/utils/typegen.ts:56-58 | every generated text ends with a line break, as the hint's last line is empty |
| Typegen.UnscopedIgnored | src/utils/typegen.ts:11-12 | a variable that is neither public nor private does not change the output, wherever it stands |
| Typegen.TypesTextLines | src/utils/typegen.ts:27-115 | when no key holds a line break, the text splits back into exactly the collected lines, and their number is the public and private variables plus the constant of the output kind |
| Typegen.PushFields | src/utils/typegen.ts:35-38 | the loop of a block pushes the field line of each variable, in order |
| Typegen.PushBlock | src/utils/typegen.ts:34-40 | a block pushes its opening line, its field lines, its closing line and an empty line |
| Typegen.GenerateOutput | src/utils/typegen.ts:27-59 | the generator's text is its collected lines joined by line breaks |
| Typegen.GenerateTypes | src/utils/typegen.ts:7-25 | `generateTypes` splits the variables by scope and runs the generator the schema selects |

## Left out

- External processes are not run:
  - each call to `convex`, `bunx wrangler` or `rm` is left out;
  - the Convex listing is a `ProcessResult` parameter;
  - the Worker listing is an exit code plus the names `JSON.parse` would yield (`None` when it throws);
  - writes go to the in-memory stores `ConvexStore` and `WranglerStore`.
- The arguments of the `convex` and `wrangler secret list` commands are not modelled. The `--prod` flag of `convex env list` and the `cwd` of `bunx` are not modelled either. The bulk and delete calls record their `buildWranglerArgs` arguments.
- WranglerSync.WranglerStore.Bulk: the temporary JSON file, `JSON.stringify` and its removal are left out, because they are serialisation and filesystem work. The temporary file's name comes in as `tempFile`.
- A failed bulk upload is only reported on stderr by the source and changes nothing the sync returns. The model's bulk upload always succeeds.
- ConvexSync.ConvexIdempotent: the re-plan is against the deployment's variables themselves. The tool re-reads them through `convex env list`, and its parser (src/utils/sync-convex.ts:75-80) drops keys outside `[A-Z_][A-Z0-9_]*` and cuts values at a line terminator. `ConvexRerun` covers the re-read for identifier keys with one-line values. `ConvexUnsettled` shows that any other managed key is set again on every run.
- ConvexSync.ConvexStore.Set and ConvexSync.ConvexStore.Remove always succeed. The source ignores the outcome of `convex env set` and `convex env remove` (src/utils/sync-convex.ts:90, 98), so a key whose set failed is still reported as added or updated; the model does not capture such a failure.
- `shouldExclude` is part of `src/utils/dotenv`, which is not part of this model. It is the parameter `excluded(key, patterns)`. The built-in `DOTENV_` prefix (src/config.ts:53) belongs inside it.
- The following are not modelled:
  - `loadEnvFile` and `getEnvFilePath`: the local record is given;
  - `parseEnvVars`: the typegen variables are given with their scope;
  - `loadConfig`: the diff takes the exclude lists and the target switches directly.
- The source's `syncToConvex` is one function with three loops. The model splits it into one method per loop (`KeepManaged`, `PushChanges`, `PushRemovals`), and `SyncToConvex` runs them in order.
- `syncToWrangler` is split the same way: `KeepUnexcluded`, `Classify`, `Stale` and `PushSecrets`.
- The three generators `generateValibotTypes`, `generateZodTypes` and `generatePlainTypes` are a single `GenerateOutput`. It is parameterised by the output kind, and each line it collects is named by its role (`Line`) before it is rendered.
- Typegen.GenerateOutput: the `lines` array is built by sequence concatenation rather than by pushing onto a mutable array.
- Color.ColumnWidth: a column's `width` is a `nat`. The source's `width?: number` may also be negative or fractional; a negative width makes `Math.min` negative and `'─'.repeat` throw a `RangeError` (src/utils/color.ts:58, 68). The tool's own columns pass 20 and 10.
- `Bun.color(...)` strings are opaque (`Palette`). `c.error` and `c.info` are not modelled, because the core never calls them.
- Color.VisibleWidthBound: lengths count Unicode scalar values, whereas JavaScript's `length` counts UTF-16 code units. The two differ for characters outside the Basic Multilingual Plane.
- Diff.FormatValue: the 16-character limit and the slices count Unicode scalar values, not UTF-16 code units.
- Text.Sort: the order compares Unicode scalar values. JavaScript's default sort compares UTF-16 code units, so the two orders differ only between a supplementary-plane character and a character in U+E000..U+FFFF.
- Text.AsciiLower: only ASCII letters are lowered, whereas `toLowerCase` lowers all of Unicode. A key with non-ASCII letters could contain `url` only after full lower-casing.
- `Object.keys` lists array-index keys such as `"1"` or `"42"` first, in ascending order, before the other keys in insertion order. A `Record`'s `keys` sequence always follows insertion order, which agrees with `Object.keys` for the identifier keys the tool handles but not for array-index keys.
- Plain JavaScript objects inherit `Object.prototype`. So `key in record`, `record[key]` and `toSync[key] = value` behave differently for keys such as `constructor` or `__proto__`. A local key `constructor`, for instance, would be reported as updated rather than added by the Convex sync. The model treats records as plain maps.
- The watch mode, `runSync` and the `get`, `set` and `cli` commands are CLI plumbing and are not modelled. So are the exit of `diffAll` on an env file that fails to load (src/commands/diff.ts:31-35) and the exit of the `diff` command's action when no sync target is configured (src/commands/diff.ts:15-18).
