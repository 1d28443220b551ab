# D&D companion app: catalog shaping and character sheets, in Dafny

A model of the data logic of a small React application for a tabletop
role-playing game. Two parts are covered.

- The spell catalog. Spell records fetched from the public D&D 5e API are
  localized to Portuguese: the school name and every class name go through a
  fixed translation table. The spells page then drops failed detail requests,
  groups the spells into one bucket per level (a "circle"), sorts each bucket
  by name, and derives the list of circles, the list of class names and a
  filtered copy of the buckets for the current search, circle and class. It
  also builds the text of the spell detail dialog.
- The character sheets. The form derives the ability modifier, the
  proficiency bonus and the maximum hit points from the rules, edits its
  state field by field, and on submit either rejects the form or hands a
  record to the character store. The store keeps the list of characters
  (append, replace by id, remove by id) and the selected character.

Layout, one module per file:

- `wrappers.dfy` (`Wrappers`): `Option`, for `null`/`undefined` values.
- `seqs.dfy` (`Seqs`): the array methods the code relies on. This covers
  `filter`, duplicate removal through `new Set`, and a stable sort by a
  comparison.
- `text.dfy` (`Text`): string order, lower-casing, `includes` and `join`.
- `localization.dfy` (`Localization`): `src/hooks/useDnDAPI.ts`.
- `catalog.dfy` (`Catalog`): `src/pages/SpellsPage.tsx`. The class
  `SpellsPage` holds the page state.
- `characters.dfy` (`Characters`): `src/context/CharacterContext.tsx`. The
  class `CharacterStore` holds the provider state.
- `character_form.dfy` (`CharacterForm`): `src/components/CharacterForm.tsx`.
  The class `CharacterFormView` holds the form state.

The network, the clock and the class options are inputs. The spells page
receives the detail responses as a `seq<Option<Spell>>`. The form receives
the loaded class options as a sequence of `(index, hit die)` pairs and the
new record's id as a string.

Where the code and its written description differ, the model follows the
code.

- `getFilteredSpells` keeps a key for every circle shown, even when its
  filtered bucket is empty. Empty buckets are only skipped when the page is
  rendered (src/pages/SpellsPage.tsx:133). The description says they are
  omitted from the result.
- `updateCharacter` and `deleteCharacter` with an unknown id change nothing
  and report nothing. The description says they raise `NotFound`.
- An incomplete form sets the form's error text. The description calls this
  a `ValidationFailure` raised to the caller.
- No response cache exists in the code: every request goes to the network.
- The catalog does not depend on the order in which the detail responses
  arrive only as long as no two different spells share a name. The sort by
  `localeCompare` ties two such spells and, being stable, keeps them in
  arrival order, so a reordering of the responses can reorder a bucket
  (`Catalog.CataloguedShuffle` proves the invariance under that condition).

## Model

| member | source | states |
|---|---|---|
| `Localization.Translate` | src/hooks/useDnDAPI.ts:60 | a name in the table maps to its entry; any other name is returned unchanged |
| `Localization.TranslateSchool` | src/hooks/useDnDAPI.ts:49-61 | a listed school gets its Portuguese name; any other school name passes through unchanged |
| `Localization.TranslateClass` | src/hooks/useDnDAPI.ts:63-75 | a listed class gets its Portuguese name; any other class name passes through unchanged |
| `Localization.SchoolTable` | src/hooks/useDnDAPI.ts:50-59 | the eight listed schools map to their eight Portuguese names, and the table has exactly eight entries |
| `Localization.ClassTable` | src/hooks/useDnDAPI.ts:64-73 | the eight listed classes map to their eight Portuguese names, and the table has exactly eight entries |
| `Localization.TablesDisjoint` | src/hooks/useDnDAPI.ts:50-73 | no translation in either table is itself a key of that table |
| `Localization.TranslateIdempotent` | src/hooks/useDnDAPI.ts:60 | a lookup with pass-through is idempotent whenever no value of the table is a key |
| `Localization.TranslateSchoolIdempotent` | src/hooks/useDnDAPI.ts:49-61 | translating a school name twice gives the same result as translating it once |
| `Localization.TranslateClassIdempotent` | src/hooks/useDnDAPI.ts:63-75 | translating a class name twice gives the same result as translating it once |
| `Localization.TranslateClasses` | src/hooks/useDnDAPI.ts:84-87 | the class list keeps its length and order; each entry keeps its index and gets its translated name |
| `Localization.FormatSpell` | src/hooks/useDnDAPI.ts:77-89 | the school name and every class name are translated, the class count and order are kept, and every other field is unchanged |
| `Localization.FormatSpellIdempotent` | src/hooks/useDnDAPI.ts:77-89 | formatting an already formatted spell changes nothing |
| `Localization.TranslateAsWritten` | src/hooks/useDnDAPI.ts:60 | the lookup with fallback on an object literal agrees with the own-entry lookup for every key that is not an inherited member |
| `Localization.TranslateSchoolAsWrittenLeaks` | src/hooks/useDnDAPI.ts:60 | as written, the school name "toString" yields the inherited function, not a string |
| `Localization.TranslateClassAsWrittenLeaks` | src/hooks/useDnDAPI.ts:74 | as written, the class name "constructor" yields the inherited constructor, not a string |
| `Localization.AsWrittenAgreesElsewhere` | src/hooks/useDnDAPI.ts:60-74 | on every name that is not an inherited member, both translations as written give the table value or the name itself |
| `Catalog.Present` | src/pages/SpellsPage.tsx:50 | the null details are dropped: one spell per non-null detail, and nothing else |
| `Catalog.OfLevelSnoc` | src/pages/SpellsPage.tsx:53-56 | appending a spell adds it to the end of the spells of its own level and of no other level |
| `Catalog.OfLevelAbsent` | src/pages/SpellsPage.tsx:54 | a level that no spell has gets no spells |
| `Catalog.OfLevelMembers` | src/pages/SpellsPage.tsx:53-56 | the spells of a level are exactly the spells with that level |
| `Catalog.OfLevelCount` | src/pages/SpellsPage.tsx:53-56 | the spells of a level hold each spell of that level as often as the input does, and no other spell |
| `Catalog.GroupByLevel` | src/pages/SpellsPage.tsx:52-56 | the keys are exactly the levels that occur, and each bucket holds the spells of its level in input order |
| `Catalog.StrLeIsPreorder` | src/pages/SpellsPage.tsx:23 | the default string order of `sort()` is total and transitive |
| `Catalog.NameLeIsPreorder` | src/pages/SpellsPage.tsx:59 | the comparison by name is total and transitive |
| `Catalog.SortedKeys` | src/pages/SpellsPage.tsx:69-71 | the keys are listed exactly once each, in strictly ascending numeric order |
| `Catalog.SortBuckets` | src/pages/SpellsPage.tsx:58-60 | visiting every key once, the loop keeps the key set and replaces every bucket by its copy sorted by name |
| `Catalog.Circles` | src/pages/SpellsPage.tsx:69-71 | the circles are exactly the bucket keys, in strictly ascending order |
| `Catalog.CataloguedBuckets` | src/pages/SpellsPage.tsx:48-61 | a bucket exists exactly for a level that some spell has; it is sorted by name, is a permutation of that level's spells and holds only that level |
| `Catalog.FlatOverMembers` | src/pages/SpellsPage.tsx:19-20 | flattening the buckets of some keys yields exactly the spells of those buckets |
| `Catalog.Values` | src/pages/SpellsPage.tsx:19-20 | `Object.values(..).flat()` holds exactly the spells of all buckets |
| `Catalog.FlatOverCount` | src/pages/SpellsPage.tsx:19-20 | over distinct keys whose buckets hold the spells of their level, the flattening holds each spell as often as the input does when its level is a key |
| `Catalog.CataloguedCount` | src/pages/SpellsPage.tsx:48-61 | each spell occurs in the buckets as often as among the formatted details |
| `Catalog.CataloguedPartition` | src/pages/SpellsPage.tsx:48-61 | the buckets together are a permutation of the formatted spells, and their total size is the number of non-null details |
| `Catalog.FormatAllPermutation` | src/pages/SpellsPage.tsx:50 | formatting a permuted list gives a permutation of the formatted list |
| `Catalog.FormattedPermutation` | src/pages/SpellsPage.tsx:48-50 | the spells that reach the grouping are the same, counted with repetition, whatever the order of the details |
| `Catalog.OfLevelPermutation` | src/pages/SpellsPage.tsx:53-56 | permuted spells give permuted level buckets |
| `Catalog.NameTiesEqual` | src/pages/SpellsPage.tsx:59 | when names tell spells apart, two spells of a sorted bucket that compare both ways are the same spell |
| `Catalog.SameBucket` | src/pages/SpellsPage.tsx:52-60 | when names tell spells apart, the sorted bucket of a level is the same for any permutation of the spells |
| `Catalog.SameLevels` | src/pages/SpellsPage.tsx:52-56 | permuted spells have the same levels |
| `Catalog.GroupedPermutation` | src/pages/SpellsPage.tsx:52-60 | when names tell spells apart, grouping and sorting give the same buckets for any permutation of the spells |
| `Catalog.CataloguedShuffle` | src/pages/SpellsPage.tsx:44-61 | when names tell spells apart, the stored catalog is the same for any order of the detail responses |
| `Catalog.ClassNamesOf` | src/pages/SpellsPage.tsx:21 | the names listed are exactly the class names of the given spells |
| `Catalog.AllClasses` | src/pages/SpellsPage.tsx:17-23 | the class names of the bucketed spells, each exactly once, in strictly ascending string order |
| `Catalog.Matches` | src/pages/SpellsPage.tsx:80-82 | an empty search with class "all" matches every spell |
| `Catalog.FilterBucket` | src/pages/SpellsPage.tsx:78-83 | a filtered bucket holds exactly the bucket's spells that match the name search and the class, in the bucket's order |
| `Catalog.NoFilterKeepsBucket` | src/pages/SpellsPage.tsx:78-83 | an empty search with class "all" keeps the whole bucket |
| `Catalog.ComponentsText` | src/pages/SpellsPage.tsx:35 | the text starts with the components joined by ", "; exactly when the material text is present and non-empty it goes on with " (", the material and ")", and its length is that of the join plus the material plus three |
| `Catalog.AdaptSpellForModal` | src/pages/SpellsPage.tsx:27-40 | null maps to null; otherwise the name, school name, level, casting time, range, duration, description and class names are copied, and the components text is built as above |
| `Catalog.SpellsPage.constructor` | src/pages/SpellsPage.tsx:8-14 | the page starts with no buckets, an empty search and both selections on "all" |
| `Catalog.SpellsPage.LoadSpells` | src/pages/SpellsPage.tsx:50-61 | the stored buckets are the formatted spells grouped by level with each bucket sorted |
| `Catalog.SpellsPage.SetFilters` | src/pages/SpellsPage.tsx:12-14 | the search, circle and class selections are set to the given values |
| `Catalog.CirclesToShow` | src/pages/SpellsPage.tsx:76 | for 'all' the circles shown are exactly the bucket keys; otherwise only the selected level |
| `Catalog.FilterCircles` | src/pages/SpellsPage.tsx:75-85 | the fresh map has exactly one key per listed circle, each holding the matching spells of that circle's bucket, or none if it has no bucket |
| `Catalog.SpellsPage.GetFilteredSpells` | src/pages/SpellsPage.tsx:74-86 | the keys are all circles for "all" and only the selected level otherwise, even without a bucket; each key holds the matching spells of its bucket, or none; the page state is unchanged |
| `Characters.Replaced` | src/context/CharacterContext.tsx:65-67 | the length is kept, every record with the id is replaced by the new one, and every other record stays in its place |
| `Characters.ReplacedAbsent` | src/context/CharacterContext.tsx:65-67 | replacing an id that no record has leaves the list as it was |
| `Characters.ReplacedKeepsUnique` | src/context/CharacterContext.tsx:65-67 | unique ids stay unique when the replacement carries the same id, and every position keeps its id |
| `Characters.AppendKeepsUnique` | src/context/CharacterContext.tsx:61 | appending a record with a new id keeps the ids unique |
| `Characters.Removed` | src/context/CharacterContext.tsx:71 | removal keeps exactly the records without the id, in their original order |
| `Characters.RemovedLength` | src/context/CharacterContext.tsx:71 | removal shrinks the list by the number of records that carry the id |
| `Characters.RemovedIdempotent` | src/context/CharacterContext.tsx:71 | deleting the same id twice gives the same list as deleting it once |
| `Characters.RemovedAbsent` | src/context/CharacterContext.tsx:71 | deleting an id that no record has leaves the list as it was |
| `Characters.RemovedUniqueShrinksByOne` | src/context/CharacterContext.tsx:71 | with unique ids, deleting a present id removes exactly one record |
| `Characters.CharacterStore.constructor` | src/context/CharacterContext.tsx:57-58 | the store starts with no characters and none selected |
| `Characters.CharacterStore.AddCharacter` | src/context/CharacterContext.tsx:60-62 | the record is appended after the unchanged old list; unique ids stay unique when its id is new |
| `Characters.CharacterStore.UpdateCharacter` | src/context/CharacterContext.tsx:64-68 | the list becomes the replaced list; an absent id changes nothing; unique ids stay unique when the id is kept |
| `Characters.CharacterStore.DeleteCharacter` | src/context/CharacterContext.tsx:70-72 | the list keeps exactly the records without the id, as a subsequence of the old list |
| `Characters.CharacterStore.SetSelectedCharacter` | src/context/CharacterContext.tsx:58 | the selected character becomes the given one or none; the list is not touched |
| `CharacterForm.Modifier` | src/components/CharacterForm.tsx:100-102 | the modifier is the floor of half of (score - 10) |
| `CharacterForm.ModifierExamples` | src/components/CharacterForm.tsx:100-102 | the modifier is 0 at scores 10 and 11, -5 at 1 and 5 at 20 |
| `CharacterForm.ModifierMonotone` | src/components/CharacterForm.tsx:100-102 | a higher score never gives a lower modifier |
| `CharacterForm.ProficiencyBonus` | src/components/CharacterForm.tsx:95-97 | the bonus is 2 plus the floor of a quarter of (level - 1) |
| `CharacterForm.ProficiencyExamples` | src/components/CharacterForm.tsx:95-97 | the bonus is 2 at levels 1 and 4, 3 at level 5 and 6 at level 20 |
| `CharacterForm.ProficiencyMonotone` | src/components/CharacterForm.tsx:95-97 | a higher level never gives a lower bonus, and levels 1 to 20 give bonuses from 2 to 6 |
| `CharacterForm.MaxHitPoints` | src/components/CharacterForm.tsx:132-139 | from level 1 on, the total equals the level-by-level count: a full die plus the modifier at level 1, and half the die plus one plus the modifier for each further level |
| `CharacterForm.ClosedFormByLevel` | src/components/CharacterForm.tsx:132-139 | the closed formula of the effect sums the level-by-level gains |
| `CharacterForm.MaxHitPointsExamples` | src/components/CharacterForm.tsx:132-139 | a d8 class with constitution 14 has 10 hit points at level 1 and 24 at level 3 |
| `CharacterForm.FindClass` | src/components/CharacterForm.tsx:130 | the result is absent exactly when no option has the index; otherwise it is the first option with that index |
| `CharacterForm.InitialFormData` | src/components/CharacterForm.tsx:39-65 | a new form has empty texts, level 1, alignment "Neutro", experience 0, all scores 10, zero hit points and empty collections; an edit form, saved back under the character's id, gives the character without its bonus, with level 0 read as 1 and an empty alignment as "Neutro" |
| `CharacterForm.ToCharacter` | src/components/CharacterForm.tsx:158-161 | the saved record carries the given id, no proficiency bonus, and every field of the form |
| `CharacterForm.FormRoundTrip` | src/components/CharacterForm.tsx:39-65 | opening a saved record gives back the form it was saved from, whatever its id, when level and alignment are set |
| `CharacterForm.FormDataExtensional` | src/components/CharacterForm.tsx:11-25 | two form states with the same fields and collections are equal |
| `CharacterForm.ApplyEdit` | src/components/CharacterForm.tsx:110-124 | an edit sets the field it names to its value and never touches the collections |
| `CharacterForm.TextEditChangesOnlyItsField` | src/components/CharacterForm.tsx:120-123 | a top-level text edit sets its field to its value and leaves every other field and collection unchanged |
| `CharacterForm.NumberEditChangesOnlyItsField` | src/components/CharacterForm.tsx:110-123 | a number edit, top-level or inside the `attributes` or `hitPoints` section, sets its field to its value and leaves every other field and collection unchanged |
| `CharacterForm.EditUndo` | src/components/CharacterForm.tsx:105-125 | writing back a field's old value after an edit restores the previous state |
| `CharacterForm.DerivedHitPoints` | src/components/CharacterForm.tsx:128-146 | only the hit points change and never the temporary ones; when the guard fails nothing changes; otherwise the maximum becomes the total for the class die, level and constitution, and the current value follows it only for a new character |
| `CharacterForm.DerivedHitPointsIdempotent` | src/components/CharacterForm.tsx:128-146 | running the HP effect twice gives the same state as running it once |
| `CharacterForm.HitPointEditKept` | src/components/CharacterForm.tsx:147 | a hit point typed in by hand is not overwritten, because hit points are not a dependency of the effect |
| `CharacterForm.ConstitutionEditRecomputes` | src/components/CharacterForm.tsx:128-147 | changing the constitution of a known class recomputes the maximum from the new score |
| `CharacterForm.Submit` | src/components/CharacterForm.tsx:150-168 | a form without name, race or class is rejected with the fixed message; otherwise an edit updates under the initial id (the new id when that one is empty) and a new form adds under the new id, the record holding exactly the form's fields |
| `CharacterForm.SubmitUnchangedEdit` | src/components/CharacterForm.tsx:150-168 | submitting an opened complete character unchanged updates it with itself, less its bonus |
| `CharacterForm.CharacterFormView.constructor` | src/components/CharacterForm.tsx:30-65 | the form starts without options or error, with the initial form state |
| `CharacterForm.CharacterFormView.HandleChange` | src/components/CharacterForm.tsx:105-125 | the form state becomes the state with the one edit applied |
| `CharacterForm.CharacterFormView.UpdateHitPoints` | src/components/CharacterForm.tsx:128-146 | the form state becomes the derived hit point state for the loaded options and for whether a character is being edited |
| `CharacterForm.CharacterFormView.Change` | src/components/CharacterForm.tsx:128-147 | an edit is applied and the HP effect runs exactly when class, level or constitution changed |
| `CharacterForm.CharacterFormView.SetClassOptions` | src/components/CharacterForm.tsx:79-83 | the options are stored and the HP effect runs again, since the class list is one of its dependencies |
| `CharacterForm.CharacterFormView.HandleSubmit` | src/components/CharacterForm.tsx:150-174 | the store and the error follow the decision of `Submit`: a rejection sets the error and leaves the store alone; an update replaces the records with the id and an addition appends, both keeping the error |
| `Seqs.FilterMembers` | src/context/CharacterContext.tsx:71 | `filter` keeps exactly the elements that pass the test |
| `Seqs.FilterCount` | src/pages/SpellsPage.tsx:78 | `filter` keeps every occurrence of an element that passes and none of one that fails |
| `Seqs.FilterIsSubsequence` | src/pages/SpellsPage.tsx:78 | `filter` keeps the original order |
| `Seqs.FilterIdempotent` | src/context/CharacterContext.tsx:71 | filtering twice by the same test is filtering once |
| `Seqs.FilterKeepsAll` | src/context/CharacterContext.tsx:71 | a test that every element passes keeps the whole sequence |
| `Seqs.FilterComplementLength` | src/context/CharacterContext.tsx:71 | a test and its negation share out the sequence between them |
| `Seqs.Filter` | src/context/CharacterContext.tsx:71 | `filter` never lengthens a sequence |
| `Seqs.Dedup` | src/pages/SpellsPage.tsx:17-22 | `Array.from(new Set(..))` keeps every element exactly once |
| `Seqs.DistinctPermutation` | src/pages/SpellsPage.tsx:17-23 | sorting a list without repetitions leaves none |
| `Seqs.InsertBy` | src/pages/SpellsPage.tsx:59 | insertion adds exactly the new element |
| `Seqs.InsertBySorted` | src/pages/SpellsPage.tsx:59 | insertion into a sorted list keeps it sorted |
| `Seqs.SortBy` | src/pages/SpellsPage.tsx:59 | `sort` returns a permutation of its input |
| `Seqs.SortBySorted` | src/pages/SpellsPage.tsx:59 | under a total preorder, `sort` returns an ordered list |
| `Seqs.SortedUnique` | src/pages/SpellsPage.tsx:59 | two sorted permutations of each other are equal when the order ties no two different elements |
| `Seqs.MapPermutation` | src/pages/SpellsPage.tsx:50 | `map` of a permutation is a permutation of the `map` |
| `Text.StrLe` | src/pages/SpellsPage.tsx:23 | a prefix never sorts after the string it begins |
| `Text.StrLeTotal` | src/pages/SpellsPage.tsx:23 | any two strings compare in code-unit order |
| `Text.StrLeTransitive` | src/pages/SpellsPage.tsx:23 | code-unit order is transitive |
| `Text.StrLeAntisymmetric` | src/pages/SpellsPage.tsx:23 | two strings that compare both ways are equal |
| `Text.Lower` | src/pages/SpellsPage.tsx:80 | lower-casing keeps the length and lower-cases each ASCII capital |
| `Text.LowerIdempotent` | src/pages/SpellsPage.tsx:80 | the result has no ASCII capitals, and lower-casing it again changes nothing |
| `Text.Contains` | src/pages/SpellsPage.tsx:80 | a string contains only needles no longer than itself |
| `Text.ContainsEmptyAndSelf` | src/pages/SpellsPage.tsx:80 | every name contains the empty search and itself |
| `Text.Join` | src/pages/SpellsPage.tsx:35 | a join starts with its first part and ends with its last |
| `Text.JoinLength` | src/pages/SpellsPage.tsx:35 | a join holds every part once and one separator between each two parts |

## Left out

- Network and async orchestration: `fetchSpells`, `fetchSpellDetails`, the
  `Promise.all` fan-outs of `loadSpells` and `loadOptions`, and
  `handleSpellClick`. Their results are inputs: the details sequence and the
  class options.
- The form's option loading. `fetchClasses`, `fetchRaces` and
  `fetchBackgrounds` are not provided by the hook, so as the code stands the
  load ends in its error branch. The model takes the loaded class options as
  given (`SetClassOptions`), and does not model races or backgrounds.
- Dice rolling (`src/pages/RollPage.tsx`): randomness and timers.
- Rendering, page switching, loading flags and labels. This includes the
  "Carregando" screens, the "0 = Truques" label, the skipping of empty buckets
  at render time and the dialog component.
- Catalog.NameLe: `localeCompare` is locale-dependent. The model compares
  names by character code, which is a total preorder as the sort needs.
- Text.Lower: Unicode `toLowerCase` is modelled on ASCII letters only.
  Accented capitals are left as they are.
- Text.StrLe: JavaScript compares UTF-16 code units; the model compares
  Dafny characters.
- Seqs.SortBy: the sort is a stable insertion sort. The model proves that it
  returns a sorted permutation, but does not prove stability.
- Catalog.SortedKeys: `Object.keys` lists integer-like keys in ascending
  order. Only non-negative integer keys are listed this way, and spell levels
  are 0 to 9.
- `Number(e.target.value)` for the circle selector and `parseInt` for form
  numbers can give `NaN`. The model uses integers throughout.
- `Date.now().toString()` is the `newId` parameter of `HandleSubmit`.
- The `onSubmit` callback and the `catch` branch of `handleSubmit`. The
  store's mutators cannot throw in the model, so the catch branch cannot be
  reached.
- React scheduling: state updates are applied at once and in order. This
  leaves out the stale `characters` closure seen by two mutators in one
  render, and the batching of the two `handleChange` calls in the HP effect.
- `useCharacter` outside a provider (an exception) is not modelled.
- CharacterForm.ProficiencyBonus: the form only displays the bonus and never
  stores it. Saved records carry `None` as their bonus.

## Findings

| source | as written | input that shows it | evidently intended | confidence | as-written member | corrected member |
|---|---|---|---|---|---|---|
| src/hooks/useDnDAPI.ts:60 | the lookup with fallback on an object literal also finds members inherited from `Object.prototype`, which are truthy functions | school name "toString" returns the `toString` function instead of a string | an unknown name passes through unchanged | not executed; real API school names never hit this | `Localization.TranslateSchoolAsWrittenLeaks` | `Localization.TranslateSchool` |
| src/hooks/useDnDAPI.ts:74 | the class lookup with fallback has the same inherited-member lookup | class name "constructor" returns the `Object` constructor instead of a string | an unknown name passes through unchanged | not executed; real API class names never hit this | `Localization.TranslateClassAsWrittenLeaks` | `Localization.TranslateClass` |
