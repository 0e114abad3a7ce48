# feed-em core, modelled in Dafny

feed-em keeps recipes and menus as YAML documents, one file `<root>/<id>.yml`
per document under a database directory. A catalog document `index.yml`
holds the list of recipe ids and the list of menu ids. This project models
the core of that program and proves properties of the model:

- **`feedem/__init__.py`** (`feedem.dfy`)
  - `normalize_path`: the guard on user-given paths.
  - `dump_yaml`: writing a document's serialised data.
  - `lower_unit`: moves an amount up the weight chain g → dkg → kg or the
    volume chain ml → dl → l while it reaches the next threshold. The loop
    is a method proved against a reference function `Lowered`. The lemmas
    show that the climb conserves the quantity, stays in its chain, and
    stops at the first step that does not fit.
- **`feedem/db.py`** (`db.dfy`)
  - `Document` and `DB` are classes over a shared `FileSystem` object
    (files and directories), with these fields:
    - the lazily filled data cache (`Null` when empty);
    - the `dirty` flag;
    - the lazily created catalog document.
  - `raw`, `data`, item access, `save`, `new`/`get`, `index`, `initialize`
    and `document_path` are methods and functions on them.
  - `Recipe.preparation_time` is a function on loaded values.
- **`feedem/commands/__init__.py`** (`commands.dfy`): the global context
  (`cli`, `open_database`) and the two editing flows, `cmd_new_document` and
  `cmd_edit_document`. The editor's answer is an `Option<string>` input and
  the new uuid is a parameter.
- **`feedem/commands/cmd_recipe.py`** (`recipe_scaling.dfy`)
  - The `--scale` string is parsed into the scale table.
  - Each ingredient with an amount is rescaled by amount / portions ×
    adults and passed through `lower_unit`.
- **`feedem/commands/cmd_recipes.py`, `cmd_menus.py`** (`listing.dfy`): the
  order-preserving list views with their any-filter semantics, the `--tag`
  filter, and the row and count loop.
- **`feedem/log.py`** (`log.dfy`)
  - `log_blob` framing and the `BlobLogger` header and footer.
  - The `extra` merge of `ContextAdapter.process` and `ModuleAdapter`.
  - The block sequence of `_format_exception_chain`.
  - The template assembly of `LoggingFormatter.format`: contexts are
    reverse-sorted by priority and each is inserted at position 2, so they
    end up in ascending priority.

Shared pieces:

- `common.dfy`: `Result`, the errors the code raises, and Python's
  `x is True` test.
- `text.dfy`: `split`, `join`, `strip` and decimal `float()` parsing.
- `yaml_value.dfy`: loaded YAML values and the abstract `Codec`
  (parse/serialise).
- `files.dfy`: the file tree with `os.path.join` and `os.path.expanduser`
  on POSIX.

Inputs the model takes as parameters:

- the YAML codec;
- the home directory;
- the editor's result and the new document id;
- the recipe data;
- the log record's time stamp;
- the renderer of one traceback block.

Two behaviours of the code that the model keeps exactly:

- `lower_unit` moves to a coarser unit only while the amount reaches that
  unit's threshold, so 250 g becomes 25 dkg, not 0.25 kg. It does not
  always climb to the top of the chain.
- `save` writes when `dirty` is true or when `force` is the object `True`.
  Any other truthy `force` (for example `1`) writes nothing.

## Model

| member | source | states |
|---|---|---|
| Feedem.NormalizePath | feedem/__init__.py:11-22 | An empty path is refused as invalid. An expanded path that does not exist is refused as missing exactly when `fine_if_missing` is not exactly True. Otherwise the result is the user-expanded path, which is non-empty. |
| Feedem.NormalizePathIdempotent | feedem/__init__.py:17-22 | Normalising an already normalised, existing path again, under either flag, gives the same result (`cli` normalises once and `DB(path)` again). |
| Feedem.DumpYaml | feedem/__init__.py:43-54 | Only an empty path is refused. The file at the expanded path then holds the serialised data, and every other file is unchanged. |
| Feedem.ChainOf | feedem/__init__.py:77-79 | The result names a unit sequence that contains the unit. It is None exactly when no sequence contains the unit. |
| Feedem.IndexOf | feedem/__init__.py:83-86 | The position found holds the unit, and no earlier position does. |
| Feedem.Climb | feedem/__init__.py:88-99 | The climb from position i ends at a position between i and the top of the chain. |
| Feedem.LowerUnit | feedem/__init__.py:57-103 | The loop returns exactly the reference result `Lowered(unit, amount)`. |
| Feedem.ClimbStops | feedem/__init__.py:91-93 | The climb ends at or above the start. Unless it ends at the top, the final amount is below the next threshold. |
| Feedem.ClimbDivides | feedem/__init__.py:95-96 | The final amount is the input amount divided by every divisor passed, in order. |
| Feedem.ClimbConserves | feedem/__init__.py:95-96 | The final amount times the product of the divisors passed equals the input amount. |
| Feedem.ClimbFits | feedem/__init__.py:88-96 | Every step taken fitted: for each unit passed, the input amount reaches the product of the thresholds up to it. |
| Feedem.ClimbKeepsBase | feedem/__init__.py:88-99 | Measured from the bottom of the chain, the climb keeps the quantity: the final amount times the divisors below the result equals the input times the divisors below the start. |
| Feedem.BaseFactorAt | feedem/__init__.py:58-71 | The unit at position k of a chain is worth the product of the divisors below k in base units. |
| Feedem.WeightFactors | feedem/__init__.py:60-64 | g, dkg and kg are worth 1, 10 and 1000 grams. |
| Feedem.VolumeFactors | feedem/__init__.py:66-70 | ml, dl and l are worth 1, 100 and 1000 millilitres. |
| Feedem.ChainsSound | feedem/__init__.py:58-71 | Both chains have one divisor fewer than units, all divisors are positive, no chain repeats a unit, and no unit is in both chains. |
| Feedem.ChainOfMember | feedem/__init__.py:77-79 | Every unit of chain s is found in chain s. |
| Feedem.IndexOfDistinct | feedem/__init__.py:83-86 | In a chain without repeats, the unit at position j is found at j. |
| Feedem.ClimbInChain | feedem/__init__.py:83-99 | The climb starts at the unit's position and ends at a position in the same chain whose unit is found there again. It keeps the quantity measured from the bottom of the chain. |
| Feedem.LoweredConservesQuantity | feedem/__init__.py:57-103 | A unit in no chain comes back unchanged with its amount. Otherwise the result unit is in the same chain, and the result measured in base units (g or ml) equals the input. |
| Feedem.LowerUnitExamples | feedem/__init__.py:88-103 | 400 g gives 40 dkg. 1500 ml gives 1.5 l. 250 g gives 25 dkg. 0.5 kg and 7 pcs are unchanged. |
| Db.Appended | feedem/commands/__init__.py:107 | Appending succeeds exactly on a mapping whose entry under the key is a list. The result then has the item added at the end of that list, with every other entry as it was. A missing key is a KeyError. |
| Db.CatalogGrowth | feedem/commands/__init__.py:106-107 | Appending ids one by one leaves the list equal to the old list followed by the ids. Every other entry stays as it was. |
| Db.StepTimes | feedem/db.py:108 | `step.get('time', 0)` succeeds exactly when every step is a mapping. It gives one value per step: the step's time, or 0 when the step has none. |
| Db.Sum | feedem/db.py:108 | `sum` succeeds exactly when every value is a number. |
| Db.SumAppend | feedem/db.py:108 | The sum of a concatenation is the sum of the sums of its parts. |
| Db.SumSnoc | feedem/db.py:108 | Adding one number to the end adds that number to the sum. |
| Db.PreparationTimeOfSteps | feedem/db.py:106-108 | A recipe whose steps are all mappings takes the sum of their times. |
| Db.StepTimesAppend | feedem/db.py:108 | One more step appends its time, or 0, to the list of times. |
| Db.PreparationTimeAddStep | feedem/db.py:106-108 | Adding a step with a numeric time adds that time to `preparation_time`. |
| Db.PreparationTimeUntimedStep | feedem/db.py:108 | Adding a step without a time leaves `preparation_time` unchanged: a missing time counts as 0. |
| Db.RelativeFileName | feedem/db.py:160 | `<id>.yml` is a relative name whenever the id does not start with `/`. |
| Db.Document.Get | feedem/db.py:82-84 | `get` loads nothing: the cache is empty and `dirty` is false. |
| Db.Document.New | feedem/db.py:76-80 | `new` caches an empty mapping with `dirty` false and does not touch the file system. |
| Db.Document.GetRaw | feedem/db.py:19-21 | Reading `raw` returns exactly the text stored at the document's path, or the missing-file error. |
| Db.Document.SetRaw | feedem/db.py:23-30 | The document's file holds exactly the text and every other file is unchanged. The cache is cleared and `dirty` is kept, so the next `data` read parses the new text. |
| Db.Document.GetData | feedem/db.py:34-38 | The read (`Db.LoadData`) parses the file only when nothing is cached, and a missing file is its error. A parsed value is cached, so a later read returns it without reading the file again. `dirty` is unchanged. |
| Db.Document.SetData | feedem/db.py:40-41 | The cache becomes the value and `dirty` is unchanged. |
| Db.Document.GetItem | feedem/db.py:45-46 | `doc[key]` is the lookup in the loaded data. Load errors propagate, and the data loaded stays cached. |
| Db.Document.SetItem | feedem/db.py:48-49 | `doc[key] = value` changes the cached data in place and never sets `dirty`. A load error leaves the cache as it was. |
| Db.Document.HasItem | feedem/db.py:51-52 | An explicit `doc.__hasitem__(key)` call (unused in the code): membership of the key in the loaded data, as `in` on that value answers it. |
| Db.Document.AppendToItem | feedem/commands/__init__.py:107 | `doc[key].append(item)` grows the cached list in place. On failure the loaded data stays as it was, and `dirty` is never set. |
| Db.Document.Save | feedem/db.py:54-64 | Nothing changes unless `dirty` is true or `force` is exactly True. An empty cache then fails the assertion and changes nothing. Otherwise the serialised cache is written over the expanded document path, the cache is kept and `dirty` is cleared. |
| Db.DB.constructor | feedem/db.py:121-126 | A new database has no catalog document yet. |
| Db.DB.DocumentPathShape | feedem/db.py:159-160 | Every document path ends in `.yml`, and the catalog lives at `<root>/index.yml`. |
| Db.DB.DocumentPathInjective | feedem/db.py:159-160 | Two relative ids give the same document path exactly when they are the same id. |
| Db.DB.SavePathIsDocumentPath | feedem/db.py:60-62 | In a database opened through `normalize_path`, the expansion `dump_yaml` applies leaves the document path unchanged, so `save` writes where `raw` reads. |
| Db.DB.Index | feedem/db.py:128-133 | The catalog document is created on first use with id `index` and an empty cache, and the same object is returned afterwards. |
| Db.DB.Open | feedem/db.py:121-126 | `DB(path)` fails as `normalize_path` does. Otherwise its root is the expanded path and it has no catalog yet. |
| Db.DB.Initialize | feedem/db.py:135-157 | The directory is created only when it is missing. The database is opened on it, and `index.yml` is overwritten with the serialised catalog `{recipes: [], menus: []}` and nothing else changes. Each failure is given with its exact error. |
| Db.WriteThenRead | feedem/db.py:23-38 | Writing `raw` and then reading `data` through `Db.LoadData` with an empty cache gives the new text parsed. |
| Db.CachedReadIgnoresFile | feedem/db.py:34-38 | Once non-`None` data has been read, the next read (`Db.LoadData` on the cache) returns it again, even after another document object rewrote the file. |
| Db.EditWithoutForceIsNotSaved | feedem/db.py:48-56 | Assigning an item and then calling `save()` without force on a clean document leaves the file system unchanged. |
| Db.InitializeThenLoadCatalog | feedem/db.py:146-157 | After `initialize`, reading the catalog back through a codec that round-trips gives `{recipes: [], menus: []}`. |
| Commands.OpenedRoot | feedem/commands/__init__.py:18-24 | A missing database path aborts, exactly when the path does not exist. Otherwise the root is the expanded path, which exists. |
| Commands.OpenAfterCli | feedem/commands/__init__.py:27-36 | The path `cli` stores is normalised a second time without change, so the database opens exactly when that path exists. |
| Commands.NewDocumentWritesText | feedem/commands/__init__.py:100-104 | Whatever happens to the catalog, the new document's file holds exactly the edited text. |
| Commands.NewDocumentCatalog | feedem/commands/__init__.py:106-108 | The flow succeeds exactly when the catalog loads as a mapping whose collection entry is a list. The catalog file then holds the catalog with the id appended once, at the end of that list, and every other list untouched, and it reads back as that catalog through a round-tripping codec. On failure only the document write remains. |
| Commands.HexIdIsRelative | feedem/commands/__init__.py:100 | A uuid4 hex id never starts with `/`. |
| Commands.GlobalContext.constructor | feedem/commands/__init__.py:13-16 | A new context has no database opened. |
| Commands.GlobalContext.Cli | feedem/commands/__init__.py:27-36 | The option type refuses exactly a path that names an existing regular file. Among the rest, the empty path is exactly the one refused as invalid. Otherwise `cli` stores the expanded path, even a missing one, and opens no database. |
| Commands.GlobalContext.OpenDatabase | feedem/commands/__init__.py:18-24 | The command aborts when the path does not exist. Otherwise a fresh `DB` is bound to the path, remembered in the context and returned. |
| Commands.NewDocument | feedem/commands/__init__.py:90-108 | An abort or a dropped edit leaves the file system unchanged. Otherwise the file system and outcome are those of writing the document and force-saving the catalog with the id appended. |
| Commands.EditDocument | feedem/commands/__init__.py:76-87 | When the database or the document's text cannot be read, the error is returned and nothing is written. A dropped edit writes nothing. Otherwise the document's file becomes exactly the edited text and its cache is cleared. |
| RecipeScaling.ParseBit | feedem/commands/cmd_recipe.py:63-65 | Every failure is a ValueError, and a bit that does not split on `=` into exactly two parts always fails. |
| RecipeScaling.ParseBitOf | feedem/commands/cmd_recipe.py:63-65 | A bit `name=value` with one `=` reads as the stripped name and the number exactly when the stripped value is a number, and is a ValueError otherwise. |
| RecipeScaling.ParseAll | feedem/commands/cmd_recipe.py:62-65 | When parsing succeeds there is one pair per bit. |
| RecipeScaling.ParseAllMeaning | feedem/commands/cmd_recipe.py:62-65 | The bits parse exactly when every bit parses. The pairs are then the bits' parses, in order. |
| RecipeScaling.ParseAllFirstError | feedem/commands/cmd_recipe.py:62-65 | When the bits before position i parse and bit i does not, the whole string fails with bit i's error. |
| RecipeScaling.ParseAllError | feedem/commands/cmd_recipe.py:63-65 | A scale string that fails to parse fails with ValueError. |
| RecipeScaling.Assign | feedem/commands/cmd_recipe.py:65 | Assigning the bits keeps every name already in the table. |
| RecipeScaling.ApplyBits | feedem/commands/cmd_recipe.py:57-65 | The scale table keeps `adults` and `kids`. The string fails exactly when one of its bits does, and then with a ValueError. |
| RecipeScaling.ApplyScaleBits | feedem/commands/cmd_recipe.py:62-65 | The loop yields the table updated with every parsed bit in order, or the first bit's error. |
| RecipeScaling.LastBitWins | feedem/commands/cmd_recipe.py:62-65 | A name ends up with the value of the last bit that sets it. |
| RecipeScaling.UnsetNameKeepsDefault | feedem/commands/cmd_recipe.py:57-65 | A name that no bit sets keeps its default, or stays absent. |
| RecipeScaling.ScaleIngredient | feedem/commands/cmd_recipe.py:73-74 | An ingredient without `amount` is left untouched. |
| RecipeScaling.ScaleIngredientMeaning | feedem/commands/cmd_recipe.py:72-88 | An amount that is not text is an AttributeError, a number that does not parse a ValueError, and zero portions a ZeroDivision. Otherwise the amount becomes the number / portions × adults moved by `lower_unit`, with the unit it picks. In a known unit chain the quantity in the base unit is exactly number / portions × adults; an unknown unit keeps it as it is. |
| RecipeScaling.ScaleIngredientList | feedem/commands/cmd_recipe.py:72-88 | The loop rescales every ingredient in order, and the first failure is the outcome. |
| RecipeScaling.ScaleRecipe | feedem/commands/cmd_recipe.py:56-88 | The scale table and rewritten recipe are: with `--scale`, the defaults updated bit by bit; without it, adults equal to the portions and kids 0. Every ingredient is rescaled and lowered. |
| RecipeScaling.RescaleSame | feedem/commands/cmd_recipe.py:82 | Scaling to as many adults as portions gives the number back. |
| RecipeScaling.NoScaleKeepsAmount | feedem/commands/cmd_recipe.py:66-88 | Without a scale string, what reaches `lower_unit` is the original number. The ingredient's amount and unit become what `lower_unit` makes of it. |
| RecipeScaling.AmountTextSplit | feedem/commands/cmd_recipe.py:76 | "200 g" splits on spaces into "200" and "g". |
| RecipeScaling.AmountTextExample | feedem/commands/cmd_recipe.py:76-79 | The first token of "200 g" is the number 200 and the last token is the unit g. |
| RecipeScaling.NumberTextExample | feedem/commands/cmd_recipe.py:78 | "200" reads as 200. |
| RecipeScaling.RescaledExample | feedem/commands/cmd_recipe.py:82-88 | 200 for 4 portions scaled to 8 adults is 400 g, stored as 40 dkg. |
| RecipeScaling.ScaleExample | feedem/commands/cmd_recipe.py:72-88 | The ingredient "200 g" for 4 portions and 8 adults becomes amount 40, unit dkg. |
| Text.Split | feedem/commands/cmd_recipe.py:62 | `split` returns at least one piece, and no piece contains the separator. |
| Text.SplitTwo | feedem/commands/cmd_recipe.py:63 | Two separator-free texts joined by one separator split back into exactly those two. |
| Text.JoinSplit | feedem/commands/cmd_recipe.py:62 | Joining the pieces of a split with the separator gives the input back. |
| Text.StripStart | feedem/commands/cmd_recipe.py:62 | The result is a suffix of the input, only whitespace was removed, and it does not start with whitespace. |
| Text.StripEnd | feedem/commands/cmd_recipe.py:62 | The result is a prefix of the input, only whitespace was removed, and it does not end with whitespace. |
| Text.Strip | feedem/commands/cmd_recipe.py:63 | The result neither starts nor ends with whitespace. It is a contiguous part of the input with only whitespace before and after it. |
| Text.ParseNumber | feedem/commands/cmd_recipe.py:65 | Only a non-empty text reads as a number. |
| Text.ParseSigned | feedem/commands/cmd_recipe.py:65 | A `-` in front of a numeral negates its value, and a `+` leaves it unchanged. |
| Text.ParseDecimal | feedem/commands/cmd_recipe.py:65 | Digits `w.f` read as the value of `w` plus the value of `f` over ten to the number of digits in `f`. |
| Text.FractionValueClosed | feedem/commands/cmd_recipe.py:65 | The digits after the point are worth their integer value over ten to their count: `25` after the point is 25/100. |
| Text.ParseUnsigned | feedem/commands/cmd_recipe.py:78 | A numeral without a sign reads as a non-negative number. |
| Text.ParseDigits | feedem/commands/cmd_recipe.py:78 | A run of digits reads as the integer it denotes. |
| Files.Tree.Write | feedem/__init__.py:49-51 | Writing a file makes a read of it give exactly the text, and leaves every other file as it was. |
| Files.Tree.MakeDir | feedem/db.py:144 | After `mkdir` the path exists, no file changed, and every other path exists exactly when it did before. |
| Files.PathJoin | feedem/db.py:160 | The join is at least as long as the name joined. |
| Files.PathJoinEndsWith | feedem/db.py:160 | A join ends the way the joined name ends. |
| Files.PathJoinInjective | feedem/db.py:160 | Relative names joined onto one directory give the same path exactly when they are the same name. |
| Files.StripTrailingSlashes | feedem/__init__.py:17 | The home directory without its trailing slashes is a prefix of it. |
| Files.ExpandUser | feedem/__init__.py:17 | Expanding a non-empty path gives a non-empty path. |
| Files.ExpandUserIdempotent | feedem/__init__.py:17 | Expanding an expanded path changes nothing. |
| Files.ExpandUserJoin | feedem/db.py:60-62 | A relative name joined onto an expanded, non-empty root is left alone by a further expansion. |
| Listing.ListView | feedem/commands/cmd_recipes.py:8-15 | The list view yields at most as many pairs as there are ids. |
| Listing.AnyAcceptsMeaning | feedem/commands/cmd_recipes.py:12 | `any` over the filters is true exactly when some filter accepts and none before it refused or raised. It is false exactly when every filter refuses. |
| Listing.ListViewNoFilters | feedem/commands/cmd_recipes.py:12 | With no filters every id is yielded, in order, with its document. |
| Listing.ListViewFilters | feedem/commands/cmd_recipes.py:8-15 | The ids yielded are a subsequence of the input, each paired with its own document. An id is yielded exactly when the filters accept its document. |
| Listing.ListedIsRowsOfView | feedem/commands/cmd_recipes.py:36-45 | A successful listing has one row per pair the list view yields, built from that pair, in the same order. |
| Listing.Tabulate | feedem/commands/cmd_recipes.py:36-45 | The loop produces the listing's rows, and the count equals the number of rows. |
| Listing.CatalogIds | feedem/commands/cmd_recipes.py:36 | The ids are exactly the catalog list's strings, in order, and a list of strings always gives them. |
| Listing.RowsNeedIterableTags | feedem/commands/cmd_recipes.py:39-46 | A row can be built only when the tags are iterable (not a number or `None`), and it keeps the tags (`Listing.TagsColumn`), the title and the id. For a menu with a title that is also enough. |
| Listing.TagListingExact | feedem/commands/cmd_recipes.py:30-36 | With `--tag`, the filters `Listing.TagFilters` installs list a document exactly when its tags contain the tag. Without it there is no filter and every document is listed. |
| Listing.ListCollection | feedem/commands/cmd_menus.py:21-50 | A missing database aborts. Otherwise the rows are the listing of the catalog's list for the collection under the tag filter, and the count equals the number of rows. |
| Listing.CmdRecipes | feedem/commands/cmd_recipes.py:21-50 | As `ListCollection` for the `recipes` list, with rows of title, portions, summed step times, tags and id. |
| Listing.CmdMenus | feedem/commands/cmd_menus.py:21-50 | As `ListCollection` for the `menus` list, with rows of title, tags and id. |
| Log.LogBlob | feedem/log.py:189 | The message starts with the intro, a colon and the header line, and ends with the footer. Its length is fixed by the inputs, and the blob can be cut back out at a fixed position. |
| Log.LogBlobInjective | feedem/log.py:189 | Two blobs under the same intro give the same message exactly when they are the same blob. |
| Log.WriteBlob | feedem/log.py:173-189 | `log_blob` hands exactly one message, the framed blob, to its writer. |
| Log.BlobLogger.constructor | feedem/log.py:106-111 | The logger keeps its writer, intro, outro and `on_finally`. |
| Log.BlobLogger.Enter | feedem/log.py:113-114 | Entering writes exactly the header and the intro. |
| Log.BlobLogger.Exit | feedem/log.py:116-120 | Exiting writes exactly the footer and the outro (or nothing for a missing outro). It returns `on_finally`'s answer, or none without it. |
| Log.BoundariesDiffer | feedem/log.py:114-117 | The header line and the footer line differ, and each starts with its boundary. |
| Log.Framed | feedem/log.py:113-120 | A `with BlobLogger` block puts its output between exactly one header line and one footer line. |
| Log.Merged | feedem/log.py:233-236 | The merged `extra` has the call's keys and the adapter's keys. Adapter values win, and other existing values are kept. |
| Log.MergedChain | feedem/log.py:226-237 | Passing a call through two adapters is one merge with their extras combined, the second adapter's keys winning. |
| Log.ContextAdapter.constructor | feedem/log.py:221-222 | A missing `extra` makes the adapter's extras empty. |
| Log.ContextAdapter.Module | feedem/log.py:267-268 | `ModuleAdapter` carries exactly one context, `ctx_module_name`, at priority 10. |
| Log.ContextAdapter.Process | feedem/log.py:226-237 | `process` creates `extra` when absent and updates it with the adapter's extras. The message passes unchanged. |
| Log.ProcessBoth | feedem/log.py:226-237 | Through two nested adapters, the inner adapter's keys win over the outer's and the call's. |
| Log.EndsAfterUnique | feedem/log.py:317-320 | A chain of causes ends after one number of links only. |
| Log.FollowEnds | feedem/log.py:317-318 | A chain that ends after n links can be followed for at most n links, and what is left still ends. |
| Log.CycleNeverEnds | feedem/log.py:317-320 | A cause chain that leads back to its start never ends, so the formatter's walk along it does not terminate. |
| Log.Blocks | feedem/log.py:310-320 | A chain of n links gives n + 1 blocks, the first rendered with the heading. |
| Log.Tail | feedem/log.py:317-320 | A chain of n links gives n blocks for the causes. |
| Log.BlocksLabels | feedem/log.py:315-320 | Block 0 is the "Exception" block. Every later block k is a "Caused by" block for the exception k links down the chain. |
| Log.FormatExceptionChain | feedem/log.py:305-322 | The text is an empty line followed by the blocks of the chain, joined with newlines. |
| Log.DebugRecordFails | feedem/log.py:362 | DEBUG has a tag, but the colour lookup as written (`Log.ColourAsWritten`) has no entry for it, so formatting a DEBUG record raises a missing-key error. |
| Log.ColourCorrected | feedem/log.py:283-297 | For tagged levels, the corrected lookup `Log.Colour` agrees with the lookup as written wherever that succeeds. The lookup as written fails exactly for DEBUG, which the corrected one leaves plain. |
| Log.InsertDesc | feedem/log.py:354 | Inserting a context adds exactly that context. |
| Log.SortDesc | feedem/log.py:354 | The sort is a permutation of the contexts. |
| Log.InsertDescKeepsOrder | feedem/log.py:354 | Inserting into a list ordered by descending priority keeps it ordered. |
| Log.SortDescSorted | feedem/log.py:354 | The sort yields descending priorities. |
| Log.Reverse | feedem/log.py:356-359 | Element k of the result is element n - 1 - k of the input. |
| Log.ReverseMultiset | feedem/log.py:356-359 | Inserting each context at the same position reverses the list and keeps every context. |
| Log.AscendingOrder | feedem/log.py:354-359 | The contexts appear in the line in non-decreasing priority, each as often as on the record. |
| Log.TemplateShape | feedem/log.py:335-360 | The template is stamp, level, one placeholder per context in ascending order (`Log.CtxFields`), the message, and then the exception text when it is shown. |
| Log.WithContexts | feedem/log.py:360 | Adding the contexts keeps every earlier value name and adds each context's name. |
| Log.WithContextsMeaning | feedem/log.py:356-360 | The keys are the earlier ones and the context names. A context name holds the value of the last context of that name, and every other key keeps its earlier value. |
| Log.PlaceStep | feedem/log.py:356-360 | Inserting one more context at position 2 extends the reversed contexts by one at the front. |
| Log.PlaceContexts | feedem/log.py:356-360 | After the loop, the template holds the contexts sorted by descending priority, reversed, between the level and the rest, and the values hold every context. |
| Log.Format | feedem/log.py:324-362 | An untagged level raises. Otherwise the line is each placeholder of the template filled in (`Log.RenderAll`) and joined with spaces, with the exception chain only when tracebacks are shown. The colour lookup is the corrected one. |

## Left out

- YAML itself (ruamel loading and dumping, indentation settings) is the abstract `Codec`. Its errors are whatever `parse` returns. `dump_yaml`'s serialiser errors are not modelled.
- jsonschema validation (`Document.validate`, `Recipe`/`Menu` schemas) is a foreign library call.
- The interactive editor loop (`edit_yaml`: temporary file, `click.edit`, `click.confirm`) is an input to the flows. So is `uuid4`.
- Rendering: the jinja2/mdv output of `recipe`, tabulate tables, click colours and the traceback template (`render` is a parameter).
- Logging infrastructure (`Logging`, handlers, `formatTime`, `format_dict`, `log_dict`, `log_xml`, `connect`). The time stamp and the stderr handler's level are inputs of `Format`.
- `os.path.expanduser` of `~user` forms (the password database); such paths are left unchanged.
- Float syntax beyond signed decimals (exponents, `inf`, `nan`, underscores) and floating-point rounding. Amounts are exact reals.
- Booleans as YAML values, and the key order of mappings. `dir()` order of the record's contexts is taken as the given order of `contexts`.
- Errors from `os.mkdir` or `open` for a missing parent directory or a directory path. click's `-` (stdout) file name.
- Aliasing of the Python dictionaries: the cached data of a document is a value, so a mutation through another reference to the same dict is not modelled.
- `db.get_recipe` (called by `cmd_recipe`) and `Menu.find` are not defined in the code. The recipe is an input of the scaling step.
- The thin command wrappers (`cmd_new_recipe`, `cmd_new_menu`, `cmd_edit_recipe`, `cmd_edit_menu`, `cmd_menu`, `cmd_init`) and `setup.py` are not part of this model.
- Db.CachedReadIgnoresFile: promises the cached value only for a first read that gave data other than `None`, because a document that parses to `None` leaves the cache empty and is read again.
- Listing.CatalogIds: a catalog list holding an id that is not a string is a TypeError here, before anything is loaded. The program formats such an id into a file name (feedem/db.py:160), loads it, and meets the id again only when it styles a listed row (feedem/commands/cmd_recipes.py:45). A catalog entry that is a mapping or a string, which the program iterates over its keys or its characters, is also a TypeError here.
- Commands.GlobalContext.Cli: does not model the option type's refusal of an existing directory that is not writable, because the file tree has no permissions.
- Listing.TagsColumn: keeps the tags value rather than the joined `- tag` lines, which are presentation.
- Log.Format: uses the corrected colour lookup (see Findings); the lookup as written is `Log.ColourAsWritten`.

## Findings

| source | as written | input that shows it | evidently intended | confidence | as-written member | corrected member |
|---|---|---|---|---|---|---|
| feedem/log.py:292-297,362 | `_level_color` has entries for INFO, WARNING, ERROR and CRITICAL only, and `format` indexes it with the record's level | any record at level DEBUG (10), which `_level_tags` does tag as `D` | a DEBUG line is formatted without colour instead of raising KeyError | high (not executed) | Log.DebugRecordFails | Log.ColourCorrected |
