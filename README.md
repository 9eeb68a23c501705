# Dota 2 patch-notes assistant: query filtering, document shaping and patch-note normalisation

This project models, in Dafny, the deterministic core of a retrieval-augmented
question-answering assistant for Dota 2 patch notes:

- **Query classification** (`dynamic_filter` in `src/utils/strainer.py`,
  `src/utils/retriever.py` and `test.py`). A user query, and in the strainer
  also the previous query, becomes a metadata filter dict. The dict holds a
  patch version, at most one hero, item or ability id, and a category. The
  strainer also resolves "latest" to the newest patch file in a directory
  listing (`get_latest_patch_version`).
- **Passage filtering** (`get_filtered_docs` and its nested
  `matches_criteria`). It keeps the retrieved passages whose metadata agrees
  with every key of the filter dict, case-insensitively.
- **Document shaping** (`src/utils/storer.py`). `replace_id_with_name` swaps
  ids for names in place. The metadata builders of `convert` tag each
  passage. `SanitizeDocuments.sanitize` adds a patch header to each passage,
  drops passages with `<br>`, and cleans the survivors.
- **Patch-note normalisation** (`add_default_hero_values` in
  `src/init_setup/modify_patch_notes.py` and in the older
  `src/modify_patch_notes.py`). It gives every hero its talent, base-stat and
  ability notes and flattens facet subsections.

Modules:

| module | file | what it holds |
|---|---|---|
| `Wrappers` | `wrappers.dfy` | `Option`, Python's `None` next to a value |
| `Text` | `text.dfy` | ASCII `lower()`, `in` on strings, digits, `str()` of integers, `strip()` |
| `Values` | `values.dfy` | metadata scalars, JSON trees, Python's `str()` of a scalar |
| `VersionPattern` | `version_pattern.dfy` | the regex `7\.\d+[a-z]?` as a scanner: `match` at a position and `findall` |
| `VersionResolver` | `version_resolver.dfy` | the split-digit sort key and `get_latest_patch_version` |
| `Catalog` | `catalog.dfy` | the hero, item and ability catalogs and `next(name for name in catalog if name in text)` |
| `Documents` | `documents.dfy` | LangChain's `Document` as a class with two mutable fields |
| `PassageFilter` | `passage_filter.dfy` | `matches_criteria` and `get_filtered_docs` (the three copies are one code) |
| `FilterDict` | `filter_dict.dfy` | the subject of a query, the hero category ladder, how a filter dict is assembled |
| `Strainer` | `strainer.dfy` | `FilterRetrievedDocuments` of `strainer.py` |
| `Retriever` | `retriever.dfy` | `RetrieveFilteredDocuments` of `retriever.py` |
| `TestScript` | `test_script.dfy` | the module-level copies in `test.py` |
| `Storer` | `storer.dfy` | `replace_id_with_name` and the metadata builders of `convert` |
| `Sanitizer` | `sanitize.dfy` | `SanitizeDocuments` |
| `PatchNotesInit` | `patch_notes_init.dfy` | `add_default_hero_values` of `src/init_setup/modify_patch_notes.py` |
| `PatchNotesLegacy` | `patch_notes_legacy.dfy` | `add_default_hero_values` of `src/modify_patch_notes.py` |

Code that changes things in place stays in place:

- `replace_id_with_name` and `sanitize` are methods on `Document` objects
  with `modifies` clauses.
- `matches_criteria`, the filter loop and `get_latest_patch_version` are
  methods with loops.

Each of them is proved against a specification function. The properties
the source promises are then lemmas about those functions.

The source and its written description disagree in one place, and the model
follows the source. The filter compares a missing metadata key as `''`,
because the code reads `doc.metadata.get(key, '')`. It is not compared as
`"N/A"`. `"N/A"` is only what `sanitize` writes for `None` values.

The default hero filter lists the category `heroes`, but no metadata builder
writes that category. That entry never matches a passage, and the other three
entries decide what a keyword-less hero query keeps.

## Model

| member | source | states |
|---|---|---|
| `Text.Lower` | src/utils/strainer.py:50 | `lower()` keeps the length and leaves no ASCII capital; a character that is not an ASCII capital is kept, and a capital becomes the lower-case letter at the same place in the alphabet |
| `Text.LowerIsIdempotent` | src/utils/strainer.py:50 | lower-casing twice gives what lower-casing once gives |
| `Text.Contains` | src/utils/strainer.py:61 | `sub in s` holds iff `sub` occurs in `s` at some index |
| `Text.StripStart` | src/utils/storer.py:242 | what is left is a suffix that does not start with whitespace, and every removed character is whitespace |
| `Text.StripEnd` | src/utils/storer.py:242 | what is left is a prefix that does not end with whitespace, and every removed character is whitespace |
| `Text.NatToString` | src/utils/storer.py:20 | `str()` of a non-negative integer is a non-empty run of digits with no leading zero whose decimal value is the integer |
| `VersionPattern.MatchAt` | src/utils/strainer.py:33 | a match at index `i` is a version token (`7.`, digits, an optional letter) that occurs at `i` |
| `VersionPattern.MatchAtLongest` | src/utils/strainer.py:27 | the greedy match at `i` is at least as long as any token occurring at `i` |
| `VersionPattern.FindAllFrom` | src/utils/strainer.py:67 | `findall` returns only version tokens |
| `VersionPattern.FindAllFromHead` | src/utils/strainer.py:67 | `findall` is empty iff no match starts in the text; otherwise its first element is the leftmost match |
| `VersionPattern.FirstVersionIsLeftmost` | src/utils/strainer.py:67-69 | `patch_match[0]` is the leftmost match, and it is absent iff there is none |
| `VersionResolver.StringLessIsStrictTotal` | src/utils/strainer.py:38 | Python's string order on the letter part is a strict total order |
| `VersionResolver.KeyLessIsStrictTotal` | src/utils/strainer.py:38 | the split-digit key order (numeric minor, then letter, `''` first) is a strict total order |
| `VersionResolver.PatchVersions` | src/utils/strainer.py:29-35 | every collected version is a version token |
| `VersionResolver.PatchVersionsFromFiles` | src/utils/strainer.py:29-35 | no version is collected iff no `.json` file name starts with a match; each collected one is the match at the start of such a name |
| `VersionResolver.Latest` | src/utils/strainer.py:37-39 | the resolved version, if any, is a version token |
| `VersionResolver.LastMaximumMovesToNew` | src/utils/strainer.py:38 | a new last entry with a key at least as large as the maximum becomes the last maximum |
| `VersionResolver.LastMaximumStays` | src/utils/strainer.py:38 | a new last entry with a smaller key leaves the last maximum where it was |
| `VersionResolver.LatestIsLastMaximum` | src/utils/strainer.py:37-39 | the result is `None` iff there are no versions; otherwise it is the last entry with the maximal key, which is what a stable ascending sort puts last |
| `VersionResolver.LatestOfSampleListing` | src/utils/strainer.py:38-39 | among `7.37`, `7.37a`, `7.37b`, `7.8` and `7.20` the latest is `7.37b` (7.20 beats 7.8, a letter beats none) |
| `VersionResolver.GetLatestPatchVersion` | src/utils/strainer.py:22-39 | the loop and the sort return the last maximal version of the listing |
| `Catalog.FirstMatch` | src/utils/strainer.py:72 | `next(..., None)` is `None` iff no name occurs in the text; otherwise it is the first name in catalog order that occurs |
| `Catalog.FirstMatchIsFirst` | src/utils/strainer.py:72 | the first occurring name is exactly the one returned |
| `PassageFilter.MatchesCriteria` | src/utils/strainer.py:117-136 | the early-exit loop returns true iff every key's allowed values contain the document's lowered value |
| `PassageFilter.FilterByCriteria` | src/utils/strainer.py:139 | the comprehension keeps exactly the matching documents, in order |
| `PassageFilter.SelectAppend` | src/utils/strainer.py:139 | extending the input by one document extends the result by it iff it is kept |
| `PassageFilter.SelectPicksMarked` | src/utils/strainer.py:139 | a selection is the input read at increasing positions, and exactly the marked ones |
| `PassageFilter.FilterIsSelect` | src/utils/strainer.py:139 | the filter is the selection of the documents that match |
| `PassageFilter.FilterIsOrderedSelection` | src/utils/strainer.py:139 | the result is an order-preserving subsequence holding exactly the matching documents |
| `PassageFilter.EmptyCriteriaKeepsAll` | src/utils/strainer.py:117-139 | an empty filter dict keeps every document |
| `PassageFilter.MoreKeysFilterWithin` | src/utils/retriever.py:98-107 | adding keys only shrinks the result: filtering by more keys equals filtering the smaller result by them |
| `PassageFilter.FilterAppend` | src/utils/strainer.py:139 | filtering a concatenation filters each part |
| `PassageFilter.FilterIsIdempotent` | src/utils/strainer.py:117-139 | filtering twice with the same dict equals filtering once |
| `PassageFilter.MatchesIsConjunction` | src/utils/strainer.py:118-136 | a document matches iff it matches each one-key filter on its own |
| `PassageFilter.MissingKeyReadsEmpty` | src/utils/retriever.py:96-106 | a document lacking a filtered key is kept only if `''` is an allowed value |
| `FilterDict.HeroCategories` | src/utils/strainer.py:79-86 | the whole keyword ladder: `talent` gives `heroes-talents`; otherwise `skill` or `ability` gives `heroes-abilities`; otherwise `base` gives `heroes-base`; the four-element default iff no keyword occurs |
| `FilterDict.AssembleShape` | src/utils/strainer.py:64-99 | only the five known keys; a version key iff a version; at most one id; a category iff a subject; every category value is one the storer writes, or `heroes`, which it never writes |
| `Strainer.PatchVersionStep` | src/utils/strainer.py:60-69 | step 1 of `dynamic_filter` yields the version part of the filter |
| `Strainer.SubjectStep` | src/utils/strainer.py:71-102 | step 2, including the dead `pop("category")`, yields the filter for the query's subject |
| `Strainer.FilterRetrievedDocuments.DynamicFilter` | src/utils/strainer.py:41-104 | the dict built step by step is the query's filter |
| `Strainer.FilterRetrievedDocuments.GetFilteredDocs` | src/utils/strainer.py:106-140 | the documents kept are the order-preserving selection by that filter |
| `Strainer.QueryFilterShape` | src/utils/strainer.py:75-102 | only known keys, at most one id, a category iff an id or "item" in the query (so none for a bare "summarize"/"updates" query), category values the storer writes or `heroes` |
| `Strainer.QueryFilterVersion` | src/utils/strainer.py:60-69 | the filter has a `patch_version` key iff step 1 found a version, and then it holds exactly that version |
| `Strainer.LatestQueryVersion` | src/utils/strainer.py:61-65 | with "latest", a version key iff some `.json` file starts with a version, and its value is the last maximal one; versions in the queries are ignored |
| `Strainer.NamedQueryVersion` | src/utils/strainer.py:66-69 | otherwise the leftmost version in the query, else the leftmost in the previous query, else no key |
| `Strainer.HeroFromQuery` | src/utils/strainer.py:72-86 | the first non-empty hero named in the query wins over the previous query, and the category comes from the current query's keywords |
| `Strainer.HeroFromPreviousQuery` | src/utils/strainer.py:72-86 | with no hero in the query, the previous query's first hero is used, with the current query's categories |
| `Strainer.HeroIdIsNamed` | src/utils/strainer.py:72-76 | a `hero_id` is a non-empty catalog name that is the first to occur in the query, or in the previous query when none truthy occurs in the query |
| `Strainer.ItemOrAbilityFromQuery` | src/utils/strainer.py:88-96 | without a hero, the item id is set iff an item occurs and the ability id iff no item but an ability does, each the first in catalog order, with its category |
| `Strainer.BareItemQuery` | src/utils/strainer.py:88-99 | with no hero and no item or ability in the query, the filter has no id, and has the scalar category `items` iff the query contains "item"; for any previous query |
| `Retriever.DynamicFilter` | src/utils/retriever.py:20-74 | the dict built by the if/elif chain is the single-query filter |
| `Retriever.GetFilteredDocs` | src/utils/retriever.py:76-111 | the documents kept are the order-preserving selection by that filter |
| `Retriever.QueryFilterShape` | src/utils/retriever.py:36-74 | the leftmost version or no key; only known keys; a category iff an id; category values the storer writes or `heroes` |
| `Retriever.EntityPriority` | src/utils/retriever.py:42-68 | hero before item before ability: each id is set iff its catalog has a name in the query and no earlier catalog does |
| `Retriever.EntityChosen` | src/utils/retriever.py:42-68 | the id set is the first name of its catalog in the query, with its category |
| `Retriever.StrainerExtendsRetriever` | src/utils/strainer.py:41-104 | with no previous query, no "latest" and non-empty hero names, the strainer's filter is the retriever's, except for the bare "item" case |
| `TestScript.DynamicFilter` | test.py:113-162 | the script's copy builds the retriever's filter |
| `TestScript.GetFilteredDocs` | test.py:164-199 | the script's copy keeps the retriever's selection |
| `Storer.Completed` | src/utils/storer.py:17-24 | the loop gets through a prefix of the documents, every one of which succeeds, and stops at the first that raises |
| `Storer.ReplaceInDocument` | src/utils/storer.py:18-24 | one pass of the loop body: it fails iff the swap raises, leaving the document as it was; otherwise the document becomes the swapped one |
| `Storer.ReplaceAllStopsAt` | src/utils/storer.py:17-24 | a loop that has swapped the documents before index `i` and stopped there, at the first `KeyError` or at the end, has produced what `ReplaceAll` describes |
| `Storer.ReplaceIdWithName` | src/utils/storer.py:15-25 | the documents are changed in place as `ReplaceAll` says, and the `KeyError` is reported |
| `Storer.ReplaceOneSwapsAndPrefixes` | src/utils/storer.py:17-24 | the id becomes the mapped name iff `str(id)` is a mapper key; other keys are kept; the text gains `"{field_name}: {value}. "` with the swapped value; it raises iff the field is missing and `"None"` is not a key |
| `Storer.ReplaceAllKeepsOrder` | src/utils/storer.py:15-25 | same length and order; every document is unchanged or swapped; it raises iff a document lacks the field and `"None"` is not a mapper key |
| `Storer.SwappedIdMatchesName` | src/utils/storer.py:22-23 | after a swap, a filter on the field keeps the document iff it names the mapped name, up to case |
| `Storer.HeroAbilitiesMetadataShape` | src/utils/storer.py:42-58 | hero id from the record; ability id of the first ability when `abilities` is truthy, `"N/A"` when it is missing or falsy (`null`, `[]`, ...); category `heroes-abilities`; both patch keys |
| `Storer.HeroTalentsMetadataShape` | src/utils/storer.py:88-99 | hero id from the record, category `heroes-talents`, and both patch keys |
| `Storer.HeroBaseMetadataShape` | src/utils/storer.py:119-130 | hero id from the record, category `heroes-base`, and both patch keys |
| `Storer.ItemsMetadataShape` | src/utils/storer.py:150-162 | item id from the record's `ability_id`, category `items`, and both patch keys |
| `Storer.GenericMetadataShape` | src/utils/storer.py:183-188 | category `generic-updates` and both patch keys, loader keys kept |
| `Storer.HeroPassagesPassDefaultCategories` | src/utils/storer.py:42-130 | the three hero builders' passages pass the default hero category filter |
| `Storer.GenericPassageFailsCategoryFilters` | src/utils/storer.py:183-188 | a generic-updates passage is kept by no filter the classifiers assemble with a category: any rung of the hero ladder, an item, an ability or the bare "item" filter |
| `Storer.BuildersWriteStoredCategories` | src/utils/storer.py:41-188 | every builder writes one of `heroes-abilities`, `heroes-talents`, `heroes-base`, `items`, `generic-updates`, so no passage carries `heroes` |
| `Sanitizer.NoneToNAReplacesOnlyNone` | src/utils/storer.py:213-218 | same keys, no `None` left, every other value kept |
| `Sanitizer.RemoveBracketsRemovesAll` | src/utils/storer.py:238 | no `[`, `]`, `<` or `>` is left, and nothing new appears |
| `Sanitizer.ScrubKeepsStretch` | src/utils/storer.py:239 | removing `\bindent-level\b` leaves a stretch of text where the word never starts exactly as it was |
| `Sanitizer.ScrubKeepsChar` | src/utils/storer.py:239 | a character that is not a letter of `indent-level` survives the removal |
| `Sanitizer.ScrubOnlyRemoves` | src/utils/storer.py:239 | the removal only deletes characters |
| `Sanitizer.CleanHasNoBracketsOrOuterSpace` | src/utils/storer.py:238-242 | cleaned text has no bracket characters and no whitespace at either end |
| `Sanitizer.StripShape` | src/utils/storer.py:242 | `strip()` only removes characters and leaves no whitespace at either end |
| `Sanitizer.PrefixedShape` | src/utils/storer.py:228 | the header puts `Patch-Version: ` first and a `.` after the version |
| `Sanitizer.BracketFreePrefix` | src/utils/storer.py:238 | removing brackets keeps bracket-free opening words and a later `.` |
| `Sanitizer.StripKeepsPrefix` | src/utils/storer.py:242 | stripping keeps opening words that start with a non-space and are followed by a `.` |
| `Sanitizer.ScrubStripKeepsHeader` | src/utils/storer.py:239-242 | the removal and the strip keep `Patch-Version: ` at the start |
| `Sanitizer.SurvivorStartsWithHeader` | src/utils/storer.py:228-242 | every surviving text still begins with `Patch-Version: ` |
| `Sanitizer.BreakInTextIsDropped` | src/utils/storer.py:228-235 | a passage whose own text has `<br>` is always dropped |
| `Sanitizer.ReplaceNonePass` | src/utils/storer.py:213-218 | each document's metadata has `None` replaced, in place, and nothing else changes |
| `Sanitizer.HeaderPass` | src/utils/storer.py:221-228 | each text gets the header built from its own metadata, in place |
| `Sanitizer.CleanDocument` | src/utils/storer.py:233-243 | one document of the third pass: kept iff its text has no `<br>`, and then its text is cleaned; otherwise it is untouched |
| `Sanitizer.CleanPass` | src/utils/storer.py:231-245 | texts without `<br>` are cleaned in place and collected in order; the others are left as they are |
| `Sanitizer.PassesCompose` | src/utils/storer.py:211-245 | the None pass followed by the header pass gives the prefixed passages; cleaning those gives the sanitized passages; the `<br>` test on the prefixed texts picks the survivors |
| `Sanitizer.SanitizeDocuments.Sanitize` | src/utils/storer.py:211-245 | every document ends as the three passes make it, and the result is the order-preserving selection of those without `<br>` after prefixing |
| `PatchNotesInit.PrefixEach` | src/init_setup/modify_patch_notes.py:14-16 | the loop prefixes every note that has a `note` text |
| `PatchNotesInit.PrefixEachAbility` | src/init_setup/modify_patch_notes.py:28-31 | the loop prefixes the notes of every existing ability |
| `PatchNotesInit.TagEach` | src/init_setup/modify_patch_notes.py:45 | the comprehension copies every note with its `facet` |
| `PatchNotesInit.FlattenSubsection` | src/init_setup/modify_patch_notes.py:38-51 | one subsection's abilities and general notes are appended after what is there |
| `PatchNotesInit.FlattenSubsections` | src/init_setup/modify_patch_notes.py:36-51 | all subsections' abilities and notes are appended, in order |
| `PatchNotesInit.NormalizeHero` | src/init_setup/modify_patch_notes.py:9-54 | the loop body yields the normalised hero |
| `PatchNotesInit.AddDefaultHeroValues` | src/init_setup/modify_patch_notes.py:8-54 | the loop over heroes yields the normalised patch note |
| `PatchNotesInit.PrefixNotesPrefixOnce` | src/init_setup/modify_patch_notes.py:14-23 | every note dict keeps its keys and gets exactly one prefix on its `note`; a dict without one, and a string note, is unchanged |
| `PatchNotesInit.PrefixAbilityShape` | src/init_setup/modify_patch_notes.py:28-31 | an existing ability keeps every key, and each of its notes gets exactly one `Changes in ability: ` |
| `PatchNotesInit.FacetAbilityShape` | src/init_setup/modify_patch_notes.py:42-47 | an appended ability has its id (`nan` if none) and its notes in order, each tagged with the facet and not prefixed |
| `PatchNotesInit.FlatAbilitiesConcat` | src/init_setup/modify_patch_notes.py:36-46 | flattening the abilities of `a + b` appends what `b` gives after what `a` gives |
| `PatchNotesInit.FlatNotesConcat` | src/init_setup/modify_patch_notes.py:48-50 | flattening the base-stat notes of `a + b` appends what `b` gives after what `a` gives |
| `PatchNotesInit.FlattenOne` | src/init_setup/modify_patch_notes.py:37-51 | one subsection contributes its own abilities and notes |
| `PatchNotesInit.FlattenCounts` | src/init_setup/modify_patch_notes.py:36-51 | exactly as many abilities and notes are appended as the subsections hold |
| `PatchNotesInit.NormalizedHeroKeys` | src/init_setup/modify_patch_notes.py:9-54 | afterwards a hero has the three note lists and no `subsections`; other keys are unchanged |
| `PatchNotesInit.NormalizedHeroDefaults` | src/init_setup/modify_patch_notes.py:11-26 | missing talent notes, base notes and abilities get their defaults (the latter two then receive the subsection entries) |
| `PatchNotesInit.NormalizedHeroNotes` | src/init_setup/modify_patch_notes.py:11-51 | existing notes get one prefix in place; the lists grow by exactly the subsection entries, which follow them |
| `PatchNotesInit.NormalizedKeepsOtherKeys` | src/init_setup/modify_patch_notes.py:9 | only `heroes` changes; without it the data is unchanged; each hero is normalised in its place |
| `PatchNotesInit.NormalizedHeroesComplete` | src/init_setup/modify_patch_notes.py:9-54 | afterwards every hero has the three note lists and no subsections |
| `PatchNotesLegacy.FillHero` | src/modify_patch_notes.py:12-18 | the three checks yield the filled hero |
| `PatchNotesLegacy.AddDefaultHeroValues` | src/modify_patch_notes.py:10-18 | the loop over heroes yields the filled patch note |
| `PatchNotesLegacy.FilledHeroDefaults` | src/modify_patch_notes.py:13-18 | the three keys are present; existing values are kept exactly; missing ones get `["No updates/changes"]` or the two-entry ability list |
| `PatchNotesLegacy.FilledHeroIdempotent` | src/modify_patch_notes.py:13-18 | filling a hero twice is filling it once |
| `PatchNotesLegacy.FilledKeepsOtherKeys` | src/modify_patch_notes.py:11 | only `heroes` changes; without it the data is unchanged |
| `PatchNotesLegacy.FilledIdempotent` | src/modify_patch_notes.py:10-18 | running the function twice gives what running it once gives |

## Left out

- Loading the catalogs from CSV (`load_set_from_csv`) is file I/O, as is the directory listing of `get_latest_patch_version`. The catalogs, already stripped and lower-cased, and the file names come in as sequences.
- Python set iteration order is unspecified. A catalog's order is the order of its sequence, and every property names "the first in that order".
- `str.lower()` and the regex classes `\d`, `\w` and `\s` are modelled on ASCII only. Unicode case folding and Unicode digits are not modelled.
- `VersionResolver.GetLatestPatchVersion` models the `sort` by its effect: it finds the last entry whose key is maximal, which is what a stable ascending sort puts last. It does not build the sorted list.
- The key is `(minor number, letter)` rather than the full tuple from `re.split`. Every collected version is `7.` followed by digits and an optional letter, so the other parts of the tuple are the same for all of them.
- `print(latest_patch)` in `dynamic_filter` is output only and is left out.
- `ConvertPatchNotesToDocuments.convert` and `add_patch_metadata` are JSON file reads and LangChain `JSONLoader` calls. Only the metadata builders they pass to the loaders are modelled, along with `replace_id_with_name`. The flattening of the per-category lists and the `try`/`except` around each loader are left out.
- The metadata builders require id fields that are scalars or absent. The `str()` of a list or dict id is not modelled. A truthy `abilities` that is not a list starting with a dict makes the source raise, and that exception is not modelled.
- `Storer.ReplaceIdWithName` reports the `KeyError` as a flag instead of raising, and does not return the list. The list it would return is the one it was given, and the model changes that list in place.
- The methods that change documents in place require the documents in the list to be distinct objects, as `JSONLoader` produces them. Aliasing between entries of one list is not modelled.
- `PatchNotesInit.AddDefaultHeroValues` rebuilds the patch note as a value instead of changing its dicts in place. `json.load` builds a tree in which nothing is shared, so the results are the same. JSON key order is not modelled.
- `PatchNotesLegacy.AddDefaultHeroValues` rebuilds the patch note as a value for the same reason, and does not model key order either.
- `PatchNotesInit.AddDefaultHeroValues` requires the JSON shape that the function's `.get`, `+` and `{**note}` need: heroes, abilities and subsections are dicts, note lists are lists, a note is a dict whose `note` is a string or a string that does not contain `note`. On most other shapes the source raises, and those exceptions are not modelled. A few other shapes the source accepts are excluded too: a note that is a list without the element `"note"`, and a note list that is a dict or a string, which the loop walks key by key or character by character, when none of those entries contains `note`.
- `PatchNotesLegacy.AddDefaultHeroValues` requires every hero to be a dict, because the source assigns into each hero. It excludes a hero that is a string or list already containing all three key names, which the source passes over without assigning.
- `np.nan` is a sentinel value (`NaN`). Floating-point semantics and floats in general are not modelled.
- `Retriever.StrainerExtendsRetriever` requires the hero catalog to hold no empty name. The strainer skips an empty name (`if not hero_id`) and the retriever accepts it (`any(...)`), so the two differ there.
- The module-level read/modify/write loops of both patch-note scripts, the embedding, vector store and language-model code, the web UI, and the download and mapper scripts are I/O and are not part of this model.
- `utils/storer.py` is not part of this model: it is a stale copy of `src/utils/storer.py` that does not parse.
