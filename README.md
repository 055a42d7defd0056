# Insomnia-to-Bruno converter: a Dafny model of the conversion

The converter reads an Insomnia v5 YAML export and lays out a Bruno collection on disk:

- a `bruno.json` manifest;
- an `environments/` directory with one `<name>.bru` file per sub-environment;
- one directory per folder item of the collection tree;
- one `<name>_<id>.bru` file per request item.

This project models the conversion step of `main.go`, which starts from the decoded document.
The model turns the document into a **plan**, not into I/O. A plan is the list of directories
created, files written (path and full content) and errors logged, in program order. It also
records whether the program ran to the end or was stopped by a panic.

Modules, one per piece of the program:

- `Yaml`: the decoded document as a tree, with Go's map lookup. A missing key reads as nil.
- `Text`: the `strings` functions used: `HasPrefix`, `HasSuffix`, ASCII `ToLower`, `ReplaceAll` of one character, and `Join`.
- `Plan`: effects and runs. It also holds `Sequence`, a loop whose passes run one after another until one panics.
- `VarLines`: the `"  key: value"` lines written while ranging over a Go map.
- `BodyType`: `detectBodyType`.
- `Headers`: `parseHeaders`, both as a function and as the in-place loop.
- `Request`: `createRequestFile`.
- `Environment`: `createEnvironmentFile`.
- `Collection`: `createCollectionFile`, the recursive walk over the collection tree.
- `Convert`: `createBrunoJsonFile` and the three calls `main` makes after decoding.

How the model treats the program's failure modes:

- **Failed type assertions.** A failed Go type assertion such as `item.(map[any]any)` panics and
  ends the program. The model returns it as `Fail(cause)` or as the run outcome `Aborted(cause)`.
  Effects issued before the panic stay in the plan.
- **`handleError`.** The program only prints the error and carries on. The model records a
  `LogError` effect and continues.
- **Map iteration order.** Go ranges over a map in an unspecified order. The model takes that
  order as an input (`Order`, restricted by `ValidOrder` to visit every key exactly once). Its
  properties are stated on the multiset of rendered lines, which no order can change.

Each function of the source that loops or changes state step by step is a method proved equal
to a specification function:

- `Headers.ParseHeaders`
- `VarLines.RenderVarLines`
- `Request.CreateRequestFile`
- `Environment.CreateEnvironmentFile`, whose loop is `Environment.CreateSubEnvironmentFiles`
- `Collection.CreateCollectionFile`, whose loop body, `Collection.CreateItem`, recurses into folders
- `Convert.RunConversion`, main's straight-line calls after decoding (no loop)

The lemmas state the source's promises about those functions.

Three behaviours of the code that a reader might not expect, all kept by the model:

- **Shape mismatches and unsupported items.** The code panics on a shape mismatch (a folder
  without a `children` list, a request whose `method` is not a string), but only logs an
  unsupported item type and goes on with the next item.
- **Header entries.** `parseHeaders` drops not only `User-Agent` but also entries that are not
  mappings and entries whose name or value is not a string.
- **Absent environments.** `createEnvironmentFile` creates the `environments/` directory even
  when `environments` is absent.

## Model

| member | source | states |
|---|---|---|
| Yaml.Get | main.go:90-92 | Looking up a key yields the stored value, or nil when the key is absent or the map is nil. A stored value is a strict subterm of the map. |
| Text.Lower | main.go:116 | `strings.ToLower`, restricted to ASCII: same length, each character lower-cased on its own. |
| Text.LowerIdempotent | main.go:167 | Lower-casing twice equals lower-casing once, and the result holds no upper-case letter. |
| Text.ReplaceChar | main.go:109 | `strings.ReplaceAll` of one character: every `from` becomes `to`, everything else is kept, and no `from` is left. |
| Text.JoinFour | main.go:146-151 | `strings.Join` of four parts is the parts with the separator between each pair. |
| Plan.ThenDone | main.go:80-84 | The empty run is a unit of sequencing on both sides: nothing before or after a step changes it. |
| Plan.ThenAssoc | main.go:80-84 | Sequencing steps is associative. |
| Plan.SequenceStep | main.go:89 | One more pass of a loop is the loop so far followed by that pass. |
| Plan.SequenceCompleted | main.go:89 | A loop runs to the end exactly when none of its passes panics. |
| Plan.SequenceAbortSticky | main.go:89 | After the first pass that panics, later passes contribute nothing. |
| Plan.SequenceOfSingles | main.go:208 | A loop whose passes each complete with one effect yields one effect per pass, in order. |
| Plan.SequenceAppend | main.go:89 | Looping over a concatenated list is looping over the first part, then the second. |
| Plan.SequenceEffectFrom | main.go:89 | Every effect of a loop comes from one of its passes. |
| VarLines.LineBagPick | main.go:134-135 | The multiset of map lines can take its entries out in any order. |
| VarLines.LineBagEntries | main.go:134-135 | The multiset of map lines has one line per map entry, and a line is in it exactly when it renders some entry. |
| VarLines.LinesFrame | main.go:134-135 | The lines depend only on the map entries whose keys the visit order lists. |
| VarLines.LinesAreLineBag | main.go:134-137 | Ranging over every key exactly once yields exactly the multiset of map lines, one line per entry. |
| VarLines.LinesCoverEntries | main.go:134-135 | A line is rendered exactly when it is `"  " + key + ": " + value` for some entry of the map. |
| VarLines.LinesOrderIndependent | main.go:134-137 | Two valid range orders give the same multiset of lines. |
| VarLines.RenderVarLines | main.go:133-136 | The append loop returns the lines for the visit order. They are the multiset of map lines, one per entry. |
| BodyType.SuffixesExclusive | main.go:181-186 | No MIME string ends with two of the three recognised suffixes. |
| BodyType.Classify | main.go:181-189 | The tag is one of the four. Each of `json`, `multipartForm` and `formUrlEncoded` is chosen exactly when its suffix ends the MIME string, and `none` exactly when no suffix does. |
| BodyType.DetectBodyType | main.go:175-190 | It succeeds exactly when the MIME lookup does, and always yields one of the four tags. It gives `none` for an absent body or a missing `mimeType`, and `json` exactly for a `.../application/json` suffix. |
| BodyType.ClassifyIgnoresPrefix | main.go:181-186 | Text in front of a recognised MIME suffix does not change the tag. |
| Headers.HeaderMap | main.go:160-171 | Every key of the processed header map is lower-case. |
| Headers.Qualifying | main.go:161-166 | An entry contributes only when it is a mapping whose `name` and `value` are strings and the name is not exactly `User-Agent`, and it then contributes exactly those two strings. |
| Headers.ParsedHeaders | main.go:155-159 | Absent `headers` gives the empty map. A sequence is processed. Anything else panics. Every key is lower-case. |
| Headers.HeaderMapLast | main.go:161-168 | Processing one more entry sets exactly the key it contributes and leaves every other key as it was. |
| Headers.HeaderMapKeys | main.go:160-171 | A key is in the result exactly when some entry (a mapping with string name other than `User-Agent` and string value) has that lower-cased name. |
| Headers.HeaderMapLastWins | main.go:166-167 | Each key maps to the value of the last entry contributing it. |
| Headers.SkippedHeaderIgnored | main.go:161-166 | Deleting an entry that is not a mapping, has a non-string name, is named exactly `User-Agent`, or has a non-string value, leaves the result unchanged. |
| Headers.ParseHeaders | main.go:154-173 | The in-place loop returns the header map, or panics exactly where the specification function does. |
| Request.FileName | main.go:109 | The file name is the item name with each `/` turned into `_`, then `_`, the id and `.bru`. The name part holds no `/`. |
| Request.HeaderBlock | main.go:131-141 | The headers block is empty exactly when there are no headers. Otherwise it starts with `headers {` and a newline, and ends with a newline and `}`. |
| Request.MetaBlock | main.go:110-114 | The meta block opens with `meta {` and the item name on its own line, and closes with the fixed type, sequence number and `}`. |
| Request.MethodBlock | main.go:124-128 | The method block opens with the method, then the url and the body tag on their own lines, and closes with `auth: inherit` and `}`. |
| Request.Url | main.go:117-121 | The url lookup succeeds exactly when `url` is absent or a string, and gives "" exactly when it is absent or the empty string. |
| Request.RequestContent | main.go:143-151 | The file body is the meta, method, headers and settings blocks with a blank line between each pair. |
| Request.RequestFile | main.go:108-152 | The request yields a file exactly when `method`, `url`, `body` and `headers` have the asserted shapes. The file is written at `dir/<file name>`. |
| Request.RequestFileLayout | main.go:130-151 | The content is the meta, method, headers and settings blocks joined by blank lines. Without headers, three blank lines separate the closing `}` of the method block from the settings block. |
| Request.MethodBlockFields | main.go:116-126 | The method block carries the method with no upper-case letter left, the url or "" when it is absent, and one of the four body tags. |
| Request.HeaderBlockLines | main.go:132-140 | The headers block holds one `"  key: value"` line per header, as a multiset independent of the range order. |
| Request.CreateRequestFile | main.go:108-152 | Statement by statement, the function yields the same file or the same panic as the specification. |
| Environment.StringMap | main.go:211-214 | The variables convert exactly when every key and value is a string, keeping each entry. |
| Environment.EnvironmentPath | main.go:216 | The file lies directly in `environments/`, ends in `.bru`, and the sub-environment name is what stands between the two. |
| Environment.VarsContent | main.go:215-218 | The file body opens with `vars {` and a newline and closes with a newline and `}`. |
| Environment.EnvironmentFile | main.go:208-219 | A sub-environment yields a file exactly when it is well formed. The file is `environments/<name>.bru`. |
| Environment.SubEnvironmentRun | main.go:208-219 | One pass completes exactly when the sub-environment is well formed, and then writes one file. |
| Environment.EnvironmentRun | main.go:192-205 | The environments directory is always created first. Absent `environments` or `subEnvironments` ends the step with nothing else done. |
| Environment.EnvironmentFilesOnePerEntry | main.go:207-219 | The loop completes exactly when every sub-environment is well formed. It then writes one file per sub-environment, in list order, at `environments/<name>.bru`. |
| Environment.EnvironmentRunCompleted | main.go:192-219 | createEnvironmentFile returns normally exactly when the environments part of the document is well formed. |
| Environment.SubEnvironmentEffect | main.go:216 | The file of a sub-environment lies under `environments/`. |
| Environment.EnvironmentRunEffects | main.go:193-219 | The step only creates `environments/` and writes files inside it. |
| Environment.EnvironmentFileLines | main.go:212-218 | The file is `vars {`, the variable lines joined by newlines, and `}`. It holds one line per variable, as a multiset, whatever the range order. |
| Environment.SizeOfInjectiveImage | main.go:213 | Tagging keys as strings keeps their number, so there is one line per variable. |
| Environment.StringMapSize | main.go:211-214 | Converting the variables keeps their number. |
| Environment.CreateSubEnvironmentFiles | main.go:207-221 | The loop over the sub-environments yields the same run as its specification: one file per sub-environment until a type assertion fails. |
| Environment.CreateEnvironmentFile | main.go:192-206 | The function yields the same run as its specification. |
| Collection.KindOf | main.go:94-104 | An item is a folder exactly for a `fld_` id, a request exactly for a `req_` id, and unsupported otherwise. |
| Collection.FolderPath | main.go:95 | A folder's directory is `dir/` followed by the item name verbatim. |
| Collection.WalkItem | main.go:90-104 | An item without a mapping, a string name, a `meta` mapping or a string id panics before doing anything. An item that completes always leaves at least one effect: its directory, its file or its log line. |
| Collection.WalkItems | main.go:88-106 | The walk of an empty list does nothing, and the walk of a list completes exactly when the walk of every item completes. |
| Collection.WalkItemCompleted | main.go:90-104 | Walking one item runs to the end exactly when its subtree is well formed. |
| Collection.WalkItemsCompleted | main.go:88-106 | The walk runs to the end exactly when every item's subtree is well formed. Unsupported items never stop it. |
| Collection.WalkEffectWidens | main.go:95-99 | Anything allowed under a folder is allowed under its parent directory. |
| Collection.WalkItemEffects | main.go:89-105 | Walking one item only creates directories under `dir/`, writes `.bru` files under `dir/`, and logs unsupported-item errors. |
| Collection.WalkItemsEffects | main.go:88-106 | The whole walk only creates directories under `dir/`, writes `.bru` files under `dir/`, and logs unsupported-item errors. |
| Collection.WalkItemDispatch | main.go:94-104 | A `fld_` item creates `dir/name` and then walks its children there. A `req_` item writes exactly one file in the current directory, or panics having written nothing. Any other id logs "Unsupported item type: " + id and completes. |
| Collection.UnsupportedContinues | main.go:102-104 | An unsupported item in a list is logged, and the walk goes on with the items after it. |
| Collection.CreateCollectionFile | main.go:88-106 | The loop yields the same run as the specification of the walk. |
| Collection.CreateItem | main.go:90-104 | One pass of the loop, including the recursion into a folder's children, yields the same run as the specification of one item. |
| Convert.BrunoJson | main.go:225-234 | The manifest is the fixed template with the name between its two halves. |
| Convert.BrunoJsonRun | main.go:225-235 | createBrunoJsonFile completes with a single write at `dir/bruno.json`, whose content starts with the template head followed by the collection name. |
| Convert.BrunoJsonEmbedsName | main.go:228 | The collection name reads back verbatim from the manifest, so different names give different manifests. |
| Convert.Conversion | main.go:73-84 | A document that is not a mapping stops the program with nothing written; otherwise `bruno.json` is the first thing written. |
| Convert.ConversionCompleted | main.go:73-84 | The conversion runs to the end exactly when the document is well formed. It starts with `bruno.json` and then `environments/`. An empty document gets both before the missing collection panics. |
| Convert.ConversionStaysInside | main.go:80-84 | Every directory created and file written lies under the output directory. Every logged error comes from the collection walk. |
| Convert.RunConversion | main.go:73-84 | main's calls after decoding yield the same run as the specification. |

## Left out

- Command-line flags, usage text, its regex reformatting and the options dump (main.go:24-62): command-line plumbing.
- Creation of the output directory itself (main.go:64-71): file-system I/O before the conversion starts.
- Reading the export file and `yaml.Unmarshal` (main.go:73-77): the model starts from the decoded tree. Only the outcome of decoding a document that is not a mapping (`log.Fatal`) is kept.
- The printing of the decoded document and the progress messages on standard output: they do not affect the output layout.
- I/O failures of `os.MkdirAll`, `os.Create`, `WriteString` and `Close` (main.go:237-259): the model assumes each succeeds. Their `handleError` log lines are therefore never emitted.
- The timestamp in `handleError` (main.go:265-269): a logged error is its context and message only.
- The texts of Go's panic messages: a panic is modelled by a short cause naming the failed assertion.
- Text.Lower: ASCII only. `strings.ToLower` also folds non-ASCII letters.
- Go's map iteration order: taken as an input that visits every key once. Properties are stated for every such order. One order function serves the whole run, so two ranges over equal maps (two requests with identical headers) get the same order in the model, where Go may order each range differently.
- Convert.ConversionStaysInside: paths are compared as text. A name containing `..` or a leading `/` is kept verbatim, so the path starts with the output directory, but the file system may resolve it outside that directory.
- Convert.BrunoJson: the name is spliced in without JSON escaping, as in the source. A name containing `"` therefore gives a manifest that is not valid JSON.
- YAML keys that are not strings: `Get` only looks up string keys, as every lookup in the source does.
