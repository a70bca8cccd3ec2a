# Cryptograss site build and seed-phrase tools, modelled in Dafny

This project models four deterministic cores of the cryptograss repository and
proves properties of them.

- **The primary build** (`primary_builder.js`). It applies the chain-data policy:
  fetch and serialize unless `SKIP_CHAIN_DATA_FETCH` is set, then always
  deserialize. It then runs the manifest page loop over `src/data/pages.yaml`,
  which reads page-specific `.md`/`.yaml` files, builds the specified context
  (page YAML, chain-data sections, data sections), layers the five context
  layers and renders body then layout. Finally it runs the show and song
  factory loops.
- **The render primitive** `renderPage` (`rendering_utils.js`). It makes the
  output directory if missing, reads the content template and the layout
  (default `base.hbs`), and renders the layout with `main_block` set to the
  body. It writes the page and returns it.
- **The seed-phrase arithmetic** (`seed_phrase_dice.js`). This covers the dice
  to word-index mixed-radix code, roll validation and the word lookup. It also
  covers the 11-bit index encoding of BIP-39 (section "Generating the
  mnemonic"), the cutting of bit strings into bytes, the checksum-index bound,
  the phrase loop and the checksum-word filter.
- **The pixel-art geometry** (`shapes.js`). This covers `hexToRgb`, the shaded
  diamond's cell classification and its fill loops, and the 8×8 digit glyphs
  with `drawNumber`.

## How it is modelled

- The file system is a `Files.Tree`, a map from paths to contents plus a set
  of directories. The imperative loops run against `Files.FileStore`, a class
  with the same two fields. Every method that changes the store is specified
  as `(fs.State(), r) == Spec(old(fs.State()), …)`. The properties are then
  proved about the pure `Spec` functions.
- Handlebars (`compile(source)(context)`), `marked`, `yaml.load`, the
  `readdirSync` listing, the chain-data JSON codec, `fetch_chaindata`,
  `appendChainDataToShows`, SHA-256 and the wallet library's phrase check are
  all function-valued parameters. They are uninterpreted, so every property
  holds for any implementation of them.
- JavaScript `parseInt`, `Number.prototype.toString(radix)`, `padStart` and
  `padEnd` are modelled in `JsNumbers`, following ECMAScript 2023, sections
  19.2.5 and 21.1.3.6.
- A canvas is an `array2<Style>` with one entry per `fillRect` square. Each
  entry holds the style the square was last filled with.
  `Shapes.PixelInOneCell` relates pixels to these squares.

Points where the code's behaviour is easy to mistake, and the members that
state it:

- There are no performer pages and no check for dangling references between
  shows and songs, so neither is modelled.
- A failing build keeps the output of the pages written before the failing
  page (`Builder.ManifestFailsFast`).
- A page-specific directory holding both `x.md` and `x.yaml` raises no error:
  the entry listed later wins (`PageContext.PageFilesLastWins`). With the
  code-point order that readdir returns on Unix, that entry is the YAML file
  (`PageContext.YamlWinsInAscendingListing`).
- The code comment at `shapes.js:112` says the highlight goes on the top-left
  and bottom-right. Inside the diamond, the test `(x + y) % 40 < 20` holds
  exactly when `x + y >= 40`. So the highlight covers the lower-right half and
  the shadow the upper-left (`Shapes.HighlightHalf`, `Shapes.DiamondSides`).

The phrase loop of `seed_phrase_dice.js` is modelled twice. `GeneratePhrase`
and the `GeneratePhrase…` lemmas follow the code as written, where an index
past the word list yields `undefined`. The `CorrectedPhrase…` members state
the corrected loop, which refuses such an index (see Findings).

## Model

| member | source | states |
|---|---|---|
| Paths.JoinEndsWith | src/build_logic/primary_builder.js:115 | `.replace(/\.hbs$/, …)` on a joined path sees only the file name: the join ends in a `/`-free suffix iff the name does, and stripping it commutes with the join |
| Paths.Dirname | src/build_logic/utils/rendering_utils.js:9 | POSIX `path.dirname`: "." for a path with no `/`, and otherwise "." or a non-empty prefix of the path |
| Paths.DirnameAtLastSlash | src/build_logic/utils/rendering_utils.js:9 | for a path not ending in `/`, the directory is everything before its last `/`: "/" when that is the leading one (so `/a` gives "/"), and "//" when the path opens with two |
| Paths.DirChain | src/build_logic/utils/rendering_utils.js:11 | a recursive `mkdirSync` creates at least the directory asked for |
| Files.Read | src/build_logic/utils/rendering_utils.js:14 | a read succeeds exactly for an existing file, returning its content; otherwise it fails with EISDIR for a directory and ENOENT for anything else |
| Files.EnsureDir | src/build_logic/utils/rendering_utils.js:9-12 | afterwards the directory exists; nothing changes if it already existed, otherwise it and its ancestors are added; files are untouched |
| Files.Write | src/build_logic/utils/rendering_utils.js:21 | `writeFileSync` creates or overwrites exactly one file; every other file and every directory is unchanged |
| Files.FileStore.MakeDirIfMissing | src/build_logic/utils/rendering_utils.js:10-12 | the store afterwards is `EnsureDir` of the store before |
| Files.FileStore.WriteFile | src/build_logic/utils/rendering_utils.js:21 | the store afterwards is `Write` of the store before |
| Values.Member | src/build_logic/primary_builder.js:164 | `chainData[section]` on a plain object is the own property when present, the built-in for a name every object inherits from `Object.prototype` (`constructor`, `toString`, …), and `undefined` otherwise, with no existence check |
| Values.Readable | src/build_logic/primary_builder.js:170 | the table of readable properties of `dataAvailableAsContext` gives, for every name, what property access gives, inherited names included |
| Values.Spread | src/build_logic/primary_builder.js:180 | `...pageInfo['context']` copies an object's fields, one key per index for an array or a string (each character as a one-character string), and nothing for `undefined`, `null`, booleans and numbers |
| Values.IndexedKeys | src/build_logic/primary_builder.js:180 | spreading an array gives exactly one key per index, holding that index's item |
| Values.IndexKeysDistinct | src/build_logic/primary_builder.js:180 | different indices have different decimal keys, so no item of a spread array hides another |
| Values.Ids | src/build_logic/primary_builder.js:219 | the ids of `Object.entries`, one per entry, in entry order |
| Values.AsObject | src/build_logic/primary_builder.js:281 | the `shows` object of a song page has exactly the table's ids as keys, each holding its entry |
| ChainData.Deserialize | src/build_logic/primary_builder.js:33 | `deserializeChainData` fails only with the read error of the cache file or a malformed snapshot; it succeeds with the decoded content of the cache file |
| ChainData.Diagnose | src/build_logic/primary_builder.js:34-40 | the dedicated "Chain data not found" error replaces a failure iff it is ENOENT while skipping; every other outcome passes through unchanged |
| ChainData.ChainDataSpec | src/build_logic/primary_builder.js:22-41 | skipping leaves the file system untouched, otherwise the fetched data is serialized over the cache file; both paths then deserialize; the dedicated error happens iff skipping with no cache; with a round-tripping codec the fetched data comes back |
| ChainData.SkipIgnoresFetch | src/build_logic/primary_builder.js:22-28 | with the skip flag the outcome does not depend on what a fetch would return |
| ChainData.LoadChainData | src/build_logic/primary_builder.js:22-41 | the chain-data chapter does exactly `ChainDataSpec` to the file store |
| Rendering.LayoutContext | src/build_logic/utils/rendering_utils.js:19 | `{...context, main_block: body}` keeps every context key, and `main_block` is the body even when the context had one |
| Rendering.RenderPageSpec | src/build_logic/utils/rendering_utils.js:6-23 | the output directory exists afterwards and is created only if missing; success iff template and layout are readable; the returned page is the one written, the layout rendered around the body; only the output file changes; on failure no file changes and the error names the first unreadable source |
| Rendering.DefaultLayoutIsBase | src/build_logic/utils/rendering_utils.js:6 | omitting `layout` is the same as passing `"base.hbs"` |
| Rendering.RenderPage | src/build_logic/utils/rendering_utils.js:6-23 | the method does exactly `RenderPageSpec` to the file store and returns its result |
| PageContext.OnlyThreeSections | src/build_logic/primary_builder.js:83-87 | a data section resolves iff it is `songs`, `shows`, `songsByProvenance` or a name inherited from `Object.prototype`, and the lookup of an inherited name gives that built-in |
| PageContext.YamlLayer | src/build_logic/primary_builder.js:154-160 | with `context_from_yaml === true` the page YAML is nested under the page's name, and an unreadable file throws its read error; any other value starts the context empty |
| PageContext.BindEachBindings | src/build_logic/primary_builder.js:162-166 | assigning a list of sections adds exactly those names other than `__proto__` (whose assignment goes to the inherited accessor and adds no key), each holding its lookup, and keeps the other keys |
| PageContext.ProtoSectionAddsNoKey | src/build_logic/primary_builder.js:168-176 | requesting the data section `__proto__` passes the existence check yet leaves `specified_context` empty |
| PageContext.FirstUnresolved | src/build_logic/primary_builder.js:168-176 | finds the first requested section the registry lacks: all earlier ones resolve; none iff all resolve |
| PageContext.SpecifiedContextSpec | src/build_logic/primary_builder.js:152-176 | the keys are the data sections and chain sections other than `__proto__`, and (with page YAML, a computed key) the page name; a data section beats a chain section, which beats the page YAML; an unreadable page YAML throws; otherwise the only failure is the first unknown data section, naming it and the page |
| PageContext.BindChainDataSections | src/build_logic/primary_builder.js:162-166 | the loop binds each chain-data section in turn, as `BindEach` |
| PageContext.BindRequestedDataSections | src/build_logic/primary_builder.js:168-176 | the loop throws at the first unknown section and otherwise binds them all |
| PageContext.SpecifiedContext | src/build_logic/primary_builder.js:152-176 | the statements compute `SpecifiedContextSpec` |
| PageContext.PageFileKey | src/build_logic/primary_builder.js:130-136 | a file contributes a key iff it ends in `.md` or `.yaml`, and the key is the name without that suffix |
| PageContext.PageFilesSpec | src/build_logic/primary_builder.js:124-139 | the per-file loop succeeds iff every listed entry is a readable file, and fails only with a read error |
| PageContext.PageFilesStops | src/build_logic/primary_builder.js:126-127 | the first unreadable entry's error is the loop's error |
| PageContext.PageFilesNoProto | src/build_logic/primary_builder.js:121-136 | the page-specific object starts empty and is only assigned to, so it never holds an own `__proto__` |
| PageContext.PageFilesSnoc | src/build_logic/primary_builder.js:126-136 | each entry adds its own binding over the earlier ones when it has a key other than `__proto__`, and changes nothing otherwise |
| PageContext.PageFilesKeys | src/build_logic/primary_builder.js:126-136 | the page-specific context has one key per `.md` or `.yaml` entry, other than `__proto__`, and no other |
| PageContext.PageFilesLastWins | src/build_logic/primary_builder.js:126-137 | when two entries share a key, the context holds the value of the one listed later; for the key `__proto__` it holds neither |
| PageContext.PageFilesOfDirectory | src/build_logic/primary_builder.js:124-139 | given a true listing of the directory, the page-specific files load iff the directory holds no sub-directory, and then bind one key per `.md` or `.yaml` file in it other than `__proto__` |
| PageContext.YamlWinsInAscendingListing | src/build_logic/primary_builder.js:124-137 | in an ascending listing, `x.yaml` comes after `x.md`, so the YAML value is the one kept (for `__proto__`, neither is) |
| PageContext.PageSpecificLayer | src/build_logic/primary_builder.js:118-140 | page-specific entries exist only when the page's directory exists, and are then the per-file loop's context |
| PageContext.ReadPageSpecificFiles | src/build_logic/primary_builder.js:117-140 | the loop computes `PageSpecificLayer` |
| PageContext.ComposeContext | src/build_logic/primary_builder.js:178-188 | keys are the union of the five layers, less `__proto__` when `Object.assign` runs for page files (spread copies an own `__proto__`, assignment does not); each value comes from the highest layer holding it: page files, then `chainData`/`imageMapping`, then specified context, then inline `context`, then `page_name` |
| Builder.ManifestOutputPath | src/build_logic/primary_builder.js:113-115 | the output is `outputBaseDir/<template>` with only a final `.hbs` turned into `.html` |
| Builder.ManifestRender | src/build_logic/primary_builder.js:142-202 | the output directory is made first; a failing page writes nothing and, among the modelled failures, fails with a read error or a missing section; an unreadable template fails before any data-section check; success needs the layout (`base_template`, else `base.hbs`); the written page is the layout around the body against the layered context |
| Builder.ManifestRenderSucceeds | src/build_logic/primary_builder.js:142-202 | a page renders when its template and layout are readable, its YAML is readable if it asks for it, and every data section it requests resolves |
| Builder.ManifestRun | src/build_logic/primary_builder.js:111-203 | among the modelled failures, the page loop fails only with a read error or a missing data section |
| Builder.ManifestStepWrites | src/build_logic/primary_builder.js:199-201 | a page that renders writes its HTML to its output path and changes no other file |
| Builder.ManifestRunPage | src/build_logic/primary_builder.js:111-203 | after a page loop that did not throw, each page's output holds the HTML that page rendered over the files the pages before it left, unless a later page writes the same path |
| Builder.ManifestFailsFast | src/build_logic/primary_builder.js:111-203 | when the loop throws, it threw at some page k: all pages before k completed, page k's step threw the loop's error, and the files are those the earlier pages left |
| Builder.RenderManifestPage | src/build_logic/primary_builder.js:142-202 | the statements do exactly `ManifestRender` |
| Builder.BuildManifestPage | src/build_logic/primary_builder.js:111-202 | one iteration does exactly `ManifestStep` and adds at most this page to `contextFromPageSpecificFiles` |
| Builder.BuildManifestPages | src/build_logic/primary_builder.js:110-203 | the `forEach` loop does exactly `ManifestRun` |
| Builder.FactoryRunKeeps | src/build_logic/primary_builder.js:219-295 | a file no page writes keeps its content, whether or not the loop throws |
| Builder.FactoryRunSucceeds | src/build_logic/primary_builder.js:219-295 | a factory loop succeeds iff it has no pages or both template and `base.hbs` are readable; otherwise nothing is written and the error names the first missing source |
| Builder.FactoryRunFiles | src/build_logic/primary_builder.js:219-295 | after success the files are the old ones plus one per page |
| Builder.FactoryRunPage | src/build_logic/primary_builder.js:219-295 | a page no later page overwrites holds its two-stage render |
| Builder.FactoryFileInjective | src/build_logic/primary_builder.js:221 | different `/`-free ids give different `shows/<id>.html` (or `songs/<slug>.html`) paths |
| Builder.RenderFactoryPages | src/build_logic/primary_builder.js:219-295 | the loop does exactly `FactoryRun`, stopping at the first throw |
| Builder.FactoryRunAllPages | src/build_logic/primary_builder.js:219-295 | with distinct outputs, every page holds its own render |
| Builder.ShowPagesRendered | src/build_logic/primary_builder.js:219-257 | every show yields `shows/<id>.html`: `reuse/single-show.hbs` inside `base.hbs`, against a context with `page_name` `show_<id>` and `page_title` the show's title |
| Builder.SongPagesRendered | src/build_logic/primary_builder.js:263-295 | every song yields `songs/<slug>.html`: `reuse/single-song.hbs` inside `base.hbs`, against a context with `page_name` `song_<slug>` and all shows |
| Builder.EnrichedShows | src/build_logic/primary_builder.js:82 | assumed of `appendChainDataToShows`, whose code is not part of this model: it enriches each show on its own and keeps the show ids and their order |
| Builder.BuildSpec | src/build_logic/primary_builder.js:22-295 | skipping with no cache stops the build with the dedicated error, and that is the only way to get it; nothing is then written |
| Builder.BuildWritesEveryPage | src/build_logic/primary_builder.js:219-295 | a successful build leaves a page for every show and every song |
| Builder.Build | src/build_logic/primary_builder.js:21-295 | the build does exactly `BuildSpec` to the file store |
| JsNumbers.NatToString | src/build_logic/seed_phrase_dice.js:78 | `toString(radix)` gives digits of the radix worth the number, with no leading zero |
| JsNumbers.NatToStringLength | src/build_logic/seed_phrase_dice.js:78 | a number prints in at most k digits iff it is below radix^k |
| JsNumbers.PadStart | src/build_logic/seed_phrase_dice.js:78 | `padStart` leaves a long enough string alone, otherwise it fills the front to the width |
| JsNumbers.PadEnd | src/build_logic/seed_phrase_dice.js:88 | `padEnd` leaves a long enough string alone, otherwise it fills the back to the width |
| JsNumbers.ParseDigits | src/build_logic/seed_phrase_dice.js:88 | `parseInt(s, radix)` of a digit string of that radix is its value |
| JsNumbers.ParseDecimalDigits | src/build_logic/seed_phrase_dice.js:29 | `parseInt(s)` of decimal digits is their value |
| JsNumbers.ParsePrintedDecimal | src/build_logic/seed_phrase_dice.js:29 | `parseInt(n.toString())` gives `n` |
| SeedPhraseDice.IndexToDice | src/build_logic/seed_phrase_dice.js:14-18 | every index in 0..19999 is `diceToIndex` of valid rolls |
| SeedPhraseDice.DiceToIndexRoundTrip | src/build_logic/seed_phrase_dice.js:14-18 | valid rolls give an index in 0..19999, and the index gives the rolls back |
| SeedPhraseDice.DiceToIndexInjective | src/build_logic/seed_phrase_dice.js:14-18 | different valid rolls give different indices |
| SeedPhraseDice.ValidateRoll | src/build_logic/seed_phrase_dice.js:28-34 | returns the parsed number, at least 1 and at most 20 for `d20` or 10 for `d10`; throws the roll message iff the entry is not a number, below 1 or above the die's faces; any other die name only checks `>= 1` |
| SeedPhraseDice.ValidateRollAcceptsFaces | src/build_logic/seed_phrase_dice.js:28-34 | every face typed as a number is accepted as itself |
| SeedPhraseDice.PromptForRoll | src/build_logic/seed_phrase_dice.js:50-70 | four accepted entries give an index in 0..19999 |
| SeedPhraseDice.PromptForRollOutcome | src/build_logic/seed_phrase_dice.js:50-70 | four entries give an index iff `validateRoll` accepts each, and then `diceToIndex` of the numbers read; otherwise the message of the first refused entry, the d20's or else a d10's |
| SeedPhraseDice.PromptForTypedRolls | src/build_logic/seed_phrase_dice.js:50-70 | typing valid rolls gives their `diceToIndex` |
| SeedPhraseDice.HighestRollsIndex | src/build_logic/seed_phrase_dice.js:14-18 | typing 20, 10, 10, 10 gives index 19999 |
| SeedPhraseDice.WordAtAsWritten | src/build_logic/seed_phrase_dice.js:100 | `wordlist[index]` is a word iff the index is inside the list |
| SeedPhraseDice.RollsBeyondWordlist | src/build_logic/seed_phrase_dice.js:99-100 | as written, every d20 roll of 4 or more picks no word; rolls 20,10,10,10 give index 19999 |
| SeedPhraseDice.RollToWord | src/build_logic/seed_phrase_dice.js:99-101 | corrected pick: a word of the list, or a refusal naming an index in 2048..19999 |
| SeedPhraseDice.RollToWordIsUniform | src/build_logic/seed_phrase_dice.js:99-101 | with refusal, every word is picked by exactly one set of valid rolls |
| SeedPhraseDice.IndexOf | src/build_logic/seed_phrase_dice.js:73 | `indexOf` is the first position holding the word, or -1 iff absent |
| SeedPhraseDice.WordToIndexRoundTrip | src/build_logic/seed_phrase_dice.js:72-74 | a word that lower-cases to list entry i gives i |
| SeedPhraseDice.WordToIndexFound | src/build_logic/seed_phrase_dice.js:72-74 | a word has an index iff its lower-cased form is in the list, and the index holds it |
| SeedPhraseDice.JsRemainder | src/build_logic/seed_phrase_dice.js:110 | JavaScript `%` on a positive size: strictly between -size and size, with the sign of the dividend and the magnitude of its magnitude modulo the size |
| SeedPhraseDice.ChecksumIndex | src/build_logic/seed_phrase_dice.js:110 | `NaN` iff the first four characters do not parse in base 16 or the list is empty; otherwise the remainder has the magnitude of the parsed number modulo the size and that number's sign, so it lies strictly between -size and size |
| SeedPhraseDice.ChecksumIndexInRange | src/build_logic/seed_phrase_dice.js:109-111 | for a hex digest the checksum index is a position of the list |
| SeedPhraseDice.RolledWordsSpec | src/build_logic/seed_phrase_dice.js:98-105 | the rolled words exist iff every set of entries gives one, and are those words in order |
| SeedPhraseDice.RolledWordsFirstError | src/build_logic/seed_phrase_dice.js:98-105 | a failure is the first set of entries that gives no word |
| SeedPhraseDice.ChecksumWord | src/build_logic/seed_phrase_dice.js:107-110 | the checksum word is the list entry at the checksum index of the phrase's digest |
| SeedPhraseDice.WithChecksumWord | src/build_logic/seed_phrase_dice.js:107-113 | corrected phrase: the words plus the word at the checksum index of their digest |
| SeedPhraseDice.GeneratePhraseSpec | src/build_logic/seed_phrase_dice.js:96-113 | as written: a generated phrase has twelve entries, the twelfth defined and a word of the list |
| SeedPhraseDice.GeneratePhraseFails | src/build_logic/seed_phrase_dice.js:96-113 | as written: generation fails iff `validateRoll` refuses an entry, with the first refusal's message; an index past the list never stops it |
| SeedPhraseDice.GeneratePhraseWords | src/build_logic/seed_phrase_dice.js:96-113 | as written: entry i is `wordlist[index]` for the i-th rolls (`undefined` past the list), and the twelfth is the checksum word of the digest of the eleven as `join` writes them |
| SeedPhraseDice.GeneratePhraseUndefinedWord | src/build_logic/seed_phrase_dice.js:96-113 | as written: rolling 20, 10, 10, 10 first, with the other entries accepted, completes a phrase whose first word is `undefined`, joined as the empty string |
| SeedPhraseDice.GeneratePhrase | src/build_logic/seed_phrase_dice.js:94-113 | the loop, as written, computes `GeneratePhraseSpec` |
| SeedPhraseDice.CorrectedPhraseSpec | src/build_logic/seed_phrase_dice.js:96-113 | corrected: a generated phrase has twelve words |
| SeedPhraseDice.CorrectedPhraseFails | src/build_logic/seed_phrase_dice.js:96-113 | corrected: generation fails iff some set of entries gives no word (refused, or past the list), and then with the first such failure |
| SeedPhraseDice.CorrectedPhraseWords | src/build_logic/seed_phrase_dice.js:96-113 | corrected: a phrase is twelve list words, the eleven rolled ones in order, then the checksum word of their digest |
| SeedPhraseDice.FirstUnknownWord | src/build_logic/seed_phrase_dice.js:193-197 | finds the first word whose lower-cased form is not in the list; none iff all are |
| SeedPhraseDice.Candidates | src/build_logic/seed_phrase_dice.js:200-213 | the result holds exactly the list words that complete the phrase validly |
| SeedPhraseDice.CandidatesInWordlistOrder | src/build_logic/seed_phrase_dice.js:200-213 | the candidates sit at strictly increasing list positions: wordlist order |
| SeedPhraseDice.FindValidChecksumWordsSpec | src/build_logic/seed_phrase_dice.js:187-214 | succeeds iff given eleven words all in the list (lower-cased), and then returns `Candidates`, the list words completing a valid phrase in list order; the wrong count throws first; an invalid word is the first one, with its position |
| SeedPhraseDice.FindValidChecksumWords | src/build_logic/seed_phrase_dice.js:187-214 | the checks and the loop compute `FindValidChecksumWordsSpec` |
| SeedPhraseBits.IndexBitsExact | src/build_logic/seed_phrase_dice.js:78 | a wordlist index is written as exactly 11 binary digits worth the index |
| SeedPhraseBits.IndexBitsOverflow | src/build_logic/seed_phrase_dice.js:78 | an index of 2048 or more is written with more than 11 digits |
| SeedPhraseBits.IndicesToBinaryRoundTrip | src/build_logic/seed_phrase_dice.js:76-80 | for wordlist indices the output has 11·n binary digits, and its 11-bit groups parse back to the indices |
| SeedPhraseBits.RunLength | src/build_logic/seed_phrase_dice.js:84 | a `.{1,8}` match stops at eight characters or at a line terminator |
| SeedPhraseBits.Chunks | src/build_logic/seed_phrase_dice.js:84 | `match` finds nothing iff every character is a line terminator |
| SeedPhraseBits.BitsToBytes | src/build_logic/seed_phrase_dice.js:82-90 | throws (`null.map`) iff there is nothing to match, which covers the empty input |
| SeedPhraseBits.PieceByte | src/build_logic/seed_phrase_dice.js:88 | a piece padded to eight bits parses to a byte whose eight-bit form is the padded piece |
| SeedPhraseBits.PiecesOfBits | src/build_logic/seed_phrase_dice.js:84-88 | a bit string cuts into ceil(len/8) pieces of one to eight bits, which padded and joined give the input padded to whole bytes |
| SeedPhraseBits.BitsToBytesRoundTrip | src/build_logic/seed_phrase_dice.js:82-90 | a non-empty bit string gives ceil(len/8) bytes in 0..255, whose 8-bit forms joined are the input right-padded with zeros |
| Shapes.HexToRgb | src/sites/cryptograss.live/js/shapes.js:65-68 | three channels in 0..255 that pack to the parsed number modulo 2^24 |
| Shapes.HexToRgbPacks | src/sites/cryptograss.live/js/shapes.js:65-68 | for `#RRGGBB`, `65536r + 256g + b` is the six digits' value |
| Shapes.HexToRgbRoundTrip | src/sites/cryptograss.live/js/shapes.js:65-68 | every colour written as `#RRGGBB` reads back as itself |
| Shapes.PixelInOneCell | src/sites/cryptograss.live/js/shapes.js:123 | each pixel lies in the `fillRect` square of exactly one cell |
| Shapes.RowMajorOnce | src/sites/cryptograss.live/js/shapes.js:100-101 | the nested loops visit every cell of the grid exactly once, cell (x, y) at step `y*width + x` |
| Shapes.DiamondCell | src/sites/cryptograss.live/js/shapes.js:103-120 | background iff Manhattan distance from (20,20) is at least 20; inside, a blend of the base toward highlight or shadow with factor in [1/20, 1], equal to 1 only at the centre |
| Shapes.HighlightHalf | src/sites/cryptograss.live/js/shapes.js:113 | inside the diamond, `(x+y) % 40 < 20` iff `x + y >= 40` |
| Shapes.DiamondSides | src/sites/cryptograss.live/js/shapes.js:112-119 | inside the diamond, the lower-right half takes the highlight and the upper-left half the shadow |
| Shapes.CellColour | src/sites/cryptograss.live/js/shapes.js:103-120 | the inner-loop statements compute `DiamondCell` |
| Shapes.GenerateDiamondPattern | src/sites/cryptograss.live/js/shapes.js:82-126 | a fresh 40×40 grid whose every cell is `DiamondCell`, filled in row-major order |
| Shapes.GlyphTableShape | src/sites/cryptograss.live/js/shapes.js:134-235 | ten glyphs of eight rows of eight characters |
| Shapes.GlyphTableInk | src/sites/cryptograss.live/js/shapes.js:134-235 | every glyph character is '0' or '1' |
| Shapes.NumberCell | src/sites/cryptograss.live/js/shapes.js:250 | foreground iff the glyph character is '1', else background |
| Shapes.DigitsDrawnApart | src/sites/cryptograss.live/js/shapes.js:134-235 | two different digits differ in some cell |
| Shapes.DrawNumber | src/sites/cryptograss.live/js/shapes.js:237-254 | outside 0..9 it throws before drawing anything; otherwise it fills the 8×8 cells of the glyph and leaves the rest of the canvas as it was |

## Left out

- `add_live_set.js`: a web3 contract write driven by DOM reads, with no self-contained logic.
- Asset gathering and the image mapping file (`primary_builder.js:49-66`). The image mapping is an input value.
- Partial registration and the client-partials copy (`primary_builder.js:89-100`).
- Set-stone pages and images (`primary_builder.js:212-213`).
- The unused-image report (`primary_builder.js:298` on).
- Console timing and logging.
- The read and parse of `src/data/pages.yaml` (`primary_builder.js:107-108`). The manifest is an input: the page names with their specs, in key order.
- Exceptions thrown inside the libraries: `yaml.load` on malformed YAML (`primary_builder.js:108`, `135`, `157`) and Handlebars `compile` or a compiled template throwing (`primary_builder.js:150`, `197-199`, `232`, `250`, `276`, `289`). The parsers and the renderer are total functions here, so the modelled failures are unreadable files, missing data sections and the chain-data errors.
- The `readdirSync` listing is an input, contents as well as order. `PageContext.PageFilesOfDirectory` shows what the page-specific files are when the listing is a true one (`PageContext.ListsDirectory`).
- The network fetch `fetch_chaindata`, `serializeChainData`'s encoder, `appendChainDataToShows` and the commit hash from `git rev-parse HEAD`. These are parameters of the model.
- Handlebars, `marked`, `js-yaml` and the readdir listing are uninterpreted parameters. Template syntax and YAML/Markdown semantics are not modelled.
- Files.Write: `mkdirSync` and `writeFileSync` always succeed. Permission errors and a file standing where a directory should be are not modelled.
- Paths.Join: `path.join` is modelled as `a + "/" + b`, without normalising `.`, `..` or repeated slashes.
- SeedPhraseDice.Lower: `toLowerCase` is modelled on ASCII letters only. JavaScript also maps other letters: `"\u212Aey"` (KELVIN SIGN, then `ey`) becomes `"key"` and is accepted by the source, but is refused here.
- Values.Member: property access on anything but a plain object is `undefined` here. JavaScript throws for `null` and `undefined`, and finds the prototype properties of arrays, strings and numbers.
- Values.Spread: a string is spread one Dafny `char` per key. JavaScript spreads UTF-16 code units, so a character outside the Basic Multilingual Plane gives one key here and two there.
- SeedPhraseBits.Chunks: the regular expression `.{1,8}` (no `u` flag) counts UTF-16 code units, and `RunLength` counts Dafny `char`s; the two differ only for characters outside the Basic Multilingual Plane, which a string of binary digits never holds.
- PageContext.PageSpec: the manifest fields are typed as the site uses them: `template` a string, `base_template` absent or a string, the two section lists absent or lists of strings. The source accepts other values and handles them differently, and none of these is modelled: a scalar string for a section list (`for…of` walks its characters, so `include_data_in_context: songs` throws for `s` and `include_chaindata_as_context: shows` binds `s`, `h`, `o`, `w`); `null` for a list or for `base_template` (a TypeError at lines 163, 169 or 197); a page entry with no value (a TypeError at line 113); a missing `template` (a TypeError at line 114).
- A page named `__proto__` with a page-specific directory: line 121 then replaces the prototype of `contextFromPageSpecificFiles` instead of adding a key, its files land on that prototype, and a later page without a directory of its own whose name is one of their keys would find that value. The model gives each page only its own directory's files.
- Builder.EnrichedShows: `appendChainDataToShows` is assumed to enrich each show on its own, as a function of its id, its record and the chain data, keeping the show ids and their order; it could in principle mutate shows depending on one another, or add and remove them. Its code is not part of this model. The enrichment changes the show objects in place (line 82), so in the source it is also seen through every other structure holding those objects, such as a song's list of shows or an entry of `songsByProvenance`. Here songs and `songsByProvenance` are plain values: a show they share with `shows` is not enriched when reached through them, in the data-section registry (lines 84-86) or in the song pages' context (line 282).
- ChainData.Deserialize: the chain-data store is taken to be one cache file at `cachePath`, written whole and read back whole; chaindata_db.js is not part of this model.
- JsNumbers.TrimStart: of the white space `parseInt` skips, only the ASCII spaces, no-break space, BOM and the line and paragraph separators are modelled. The other Unicode space separators are not.
- JsNumbers.ParseInt: numbers are exact integers. Precision loss above 2^53 is not modelled. The values the build parses are colours (`shapes.js:66`, 24 bits for `#RRGGBB`), 16-bit digest heads and 8-bit pieces, all exact. A colour of more than 13 hex digits, or a roll beyond 2^53 typed at `validateRoll`, is read exactly here while JavaScript rounds it: the roll is refused either way, being above 20, but the colour's channels can differ.
- Shapes.HexToRgb: the conversion of `>>` to a 32-bit integer is not written out. It changes the number by a multiple of 2^32, so the three low bytes are the same either way.
- Readline prompting, `process.exit` and the security confirmation of the seed-phrase tool are left out. The entries are inputs.
- SHA-256 is a parameter of the model, and so is the wallet library's phrase check used by `findValidChecksumWords`.
- `deriveFromExistingWords` and wallet/address derivation are left out. They call `wordlists.mnemonicToAccount` and `generateChecksumWord`, which are undefined.
- The floating-point blending of `blendColors` (`shapes.js:71-78`). A blended cell is the token `Blend(base, toward, factor)` with an exact rational factor. `Math.round` and the `rgb(...)` string are not modelled.
- DOM and canvas creation, `getContext`, the `.pixel-number` and `DOMContentLoaded` handlers, image compositing and PNG links (`shapes.js:83-93`, `257-312`).
- Shapes.DrawNumber: the canvas is modelled at cell level. A square partly off the canvas edge is not modelled: a cell is either painted or dropped.
- Concurrency and atomicity of writes: the code is sequential and promises neither.

## Findings

| source | as written | input that shows it | evidently intended | confidence | as-written member | corrected member |
|---|---|---|---|---|---|---|
| src/build_logic/seed_phrase_dice.js:100 | `wordlist[index]` with `index = diceToIndex(...)` in 0..19999, but the BIP-39 list has 2048 words, so any d20 roll of 4 or more gives `undefined`; the loop pushes it and goes on, `join` writes it as the empty string, and the checksum is taken over that text | rolls 20, 10, 10, 10 give index 19999 | refuse an index beyond the list with an error, so that the dice are thrown again; each of the 2048 words then has exactly one roll set | not executed | SeedPhraseDice.GeneratePhraseUndefinedWord | SeedPhraseDice.RollToWordIsUniform |
