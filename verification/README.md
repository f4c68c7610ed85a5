# Smart wardrobe: a verified model of its core logic

This project models the logic of a React "smart wardrobe" application in Dafny. Beneath
the UI and the hosted image-model calls, the application keeps a closet of garments per
user in IndexedDB. A background job removes the photo background of each uploaded garment,
one at a time and with a cooldown. Outfits can be composed, evaluated and saved, scenarios
grouped, outfits scheduled on a month calendar, recommendations saved, and garments
dressed onto a 3D mannequin. A second, smaller prototype (`smart-my-closet-ai`) has its
own closet, tag editor and try-on list.

Every call to the image model becomes an input value: an `Attempt` (success or thrown
error) or an `Option`. The same goes for the clock (`now`), the locale-formatted date
label and the result of drawing a resized image on a canvas. The model has one module per
source file:

- `Storage` (services/storageService.ts): the key/value store as an abstract
  `map<(store, key), value>` and a `Database` class whose upgrade creates the five stores
  if missing.
- `Types` (types.ts) and `SmartTypes` (smart-my-closet-ai/types.ts): the records.
- `App` (App.tsx): the `WardrobeApp` class with the background-removal queue tick,
  per-user hydration, the persist guard, login/logout and the collection handlers.
- `Closet`, `Outfits`, `Calendar`, `Discover` and `Mannequin`: components/Closet.tsx,
  Outfits.tsx, TryOn.tsx (the calendar view), Discover.tsx and ThreeModel.tsx.
- `Gemini` (services/geminiService.ts): the retry combinator, the image-part scans and
  the resize guard.
- `SmartApp`, `SmartCloset` and `SmartTryOn`: the second prototype's App.tsx,
  ClosetSection.tsx and TryOnSection.tsx.
- Helper modules:
  - `Wrappers` (`Option`, `Attempt`);
  - `Seqs` (`filter`, by-id `map`/`filter`);
  - `Strings` (`trim`, `split`, `join`);
  - `Ids` (`Date.now().toString()` and the `` `prefix-${n}` `` ids).

Behaviour the model keeps as the code has it:

- The tick advances the cooldown only after a successful background removal
  (App.tsx:210). The catch at App.tsx:211-212 leaves the cooldown as it was, so after a
  failure the next item may start at once.
- The tick's guard checks the busy flag (App.tsx:200) as well as the pending item and the
  cooldown (App.tsx:202-204).
- `toggleEquip` keeps at most one garment per category, accessories included. The comment
  at smart-my-closet-ai/components/TryOnSection.tsx:21 mentions an exception for
  accessories, but the code at lines 22-26 does not make one.
- Inside its `try`, `removeBackground` catches every error from the model calls and
  returns the original image (services/geminiService.ts:114-130). `resizeImage` and
  `getAI()` run before that `try` (services/geminiService.ts:112-113), and an error there
  rejects the call. The tick then takes its failure branch (App.tsx:211-212). The model
  keeps that branch and takes the call's outcome as an input.

## Model

| member | source | states |
|---|---|---|
| Storage.StoreNamesDistinct | services/storageService.ts:4-10 | there are five store names and they are pairwise distinct |
| Storage.Write | services/storageService.ts:33-35 | a put adds the key, stores the value under it and keeps every other entry |
| Storage.Erase | services/storageService.ts:55-57 | a delete removes exactly the key and keeps every other entry |
| Storage.Read | services/storageService.ts:44-47 | a get yields the stored value when the key is present and nothing otherwise |
| Storage.ReadAfterWrite | services/storageService.ts:30-50 | reading a key just written returns the written value |
| Storage.WriteOverwrites | services/storageService.ts:35 | a second put to the same key leaves the same store as the second put alone |
| Storage.ReadAfterErase | services/storageService.ts:41-58 | reading a key just deleted returns nothing |
| Storage.OtherKeysUntouched | services/storageService.ts:33-35 | put and delete on one (store, key) pair do not change what any other pair reads |
| Storage.ReadUnwritten | services/storageService.ts:45-47 | a key never written reads as absent |
| Storage.Database.constructor | services/storageService.ts:12-14 | a new database has version 0, no stores and no data |
| Storage.Database.CreateIfMissing | services/storageService.ts:21 | a store is created exactly when it is missing, and afterwards it exists |
| Storage.Database.Upgrade | services/storageService.ts:19-26 | the upgrade creates exactly the missing stores among the five; when all exist it creates none |
| Storage.Database.Open | services/storageService.ts:12-28 | opening runs the upgrade only below version 1; afterwards all five stores exist and no other store was added |
| Storage.Database.Put | services/storageService.ts:30-39 | a put succeeds iff the store exists, and then the data is the old data with the key written |
| Storage.Database.Get | services/storageService.ts:41-50 | a get returns the stored value or nothing when the store exists, fails otherwise, and changes no data |
| Storage.Database.Delete | services/storageService.ts:52-61 | a delete succeeds iff the store exists, and then the data is the old data without the key |
| Types.Category.Value | types.ts:2-8 | no category's string is the filter name `'All'` |
| Types.CategoriesEnumerated | types.ts:2-8 | five categories with pairwise distinct strings; the dress string is `'DRESSES'`, not `'Dresses'` |
| Types.ClosetItem.Progress | types.ts:26-27 | a missing progress reads as 0, a present one as itself |
| Types.ViewsEnumerated | types.ts:73 | five views with pairwise distinct names |
| Ids.NatToString | App.tsx:184 | the decimal string of a number: non-empty, all digits, one digit exactly for numbers below ten |
| Ids.NatToStringInjective | App.tsx:184 | different numbers print differently, so ids built from different times differ |
| Ids.Tagged | App.tsx:240 | an id made of a prefix and a number starts with the prefix |
| Ids.TaggedInjective | App.tsx:240 | ids with the same prefix and different numbers differ |
| App.Hydrate | App.tsx:131-145 | each collection is the stored value when it has the right shape; otherwise items fall back to the initial closet, outfits to empty, the calendar to empty and the profile to one named after the user |
| App.FreshUserDefaults | App.tsx:129-145 | a user with nothing stored loads the initial closet, no outfits, an empty calendar and a profile with their name |
| App.PersistThenLoad | App.tsx:161-178 | what persist writes for a user loads back unchanged for that user |
| App.PersistOtherUser | App.tsx:166-171 | persisting one user's data does not change what another user loads |
| App.SwitchRoundTrip | App.tsx:116-178 | after user A's data is saved and user B's is saved, switching back to A loads A's data |
| App.FirstPending | App.tsx:202 | the index of the first item with isProcessing whose progress is below 100, or none when no item is pending |
| App.WithProgress | App.tsx:207 | only the items with the given id get the new progress; the rest and the length are unchanged |
| App.Finished | App.tsx:209-212 | the finished item is no longer processing, has progress 100, has the cleaned image only on success, and is otherwise unchanged |
| App.Completed | App.tsx:209-212 | only the items with the job's id are finished; the rest and the length are unchanged |
| App.StartKeepsChoice | App.tsx:202-207 | setting progress 20 on the chosen item keeps it the first pending item, so the job finishes the item it started |
| App.FirstPendingUnique | App.tsx:202 | the first pending index is the one before which no item is pending |
| App.CompletionSettles | App.tsx:209-212 | the finished item is no longer pending, and finishing keeps every item's processing flag consistent with its progress |
| App.QueueAdvances | App.tsx:199-219 | a complete tick keeps the items settled, and the next pick is none or a later position, so the queue moves forward |
| App.UploadedItems | App.tsx:239-251 | one new item per detected garment, in order, with id `item-<now>-<i>`, the detected fields, the photo as both image and original, processing with progress 10 |
| App.UploadIdsDistinct | App.tsx:240 | the items of one upload get pairwise distinct ids |
| App.WardrobeApp.constructor | App.tsx:77-92 | the app starts booting, with no user, not hydrated, not busy, no cooldown and empty collections |
| App.WardrobeApp.ResetSession | App.tsx:117-123 | without a user the collections are emptied, hydration is cleared and nothing else changes |
| App.WardrobeApp.LoadUserData | App.tsx:126-157 | the collections become what the store holds for the user, with the fallbacks; the app is hydrated; the store is unchanged |
| App.WardrobeApp.OnUserChanged | App.tsx:116-158 | no user empties the collections; a user loads their data |
| App.WardrobeApp.Boot | App.tsx:95-113 | a saved session with a non-empty username becomes the current user, and that user's data is loaded and hydrated; otherwise the user, the collections and the hydration flag stay as they were; booting ends either way and the queue fields are kept |
| App.WardrobeApp.Login | App.tsx:180-187 | blank input changes nothing; otherwise the user is the trimmed name with id `u-<now>`, and their data is loaded |
| App.WardrobeApp.Logout | App.tsx:189-196 | the saved session is deleted from the store, the user is cleared and the collections are emptied |
| App.WardrobeApp.Persist | App.tsx:161-178 | nothing is written while booting, logged out or not hydrated; otherwise the four collections under the username and the session are written |
| App.WardrobeApp.StartJob | App.tsx:205-207 | the app becomes busy with the chosen item in flight, and only that item's progress becomes 20 |
| App.WardrobeApp.BeginJob | App.tsx:199-207 | the job starts exactly when the guards pass and an item is pending; then the app is busy with the first pending item and only that item's progress is 20; otherwise nothing changes |
| App.WardrobeApp.FinishJob | App.tsx:208-215 | the job's item is finished with the outcome, busy is cleared, and the cooldown moves to done time + 5000 only on success |
| App.WardrobeApp.ProcessQueue | App.tsx:199-219 | one whole tick: it starts exactly when the guards pass; a started job leaves the item finished, the app idle and the cooldown advanced only on success; a tick that does not start changes nothing; the user, booting and hydration flags never change |
| App.WardrobeApp.Upload | App.tsx:238-255 | the uploaded items go before the existing ones; a failed analysis leaves the closet unchanged |
| App.WardrobeApp.DeleteItem | App.tsx:263-266 | the closet loses exactly the items with that id |
| App.WardrobeApp.UpdateItem | App.tsx:333 | same-id items are replaced by the edited item |
| App.WardrobeApp.SaveOutfit | App.tsx:268-271 | the outfit is prepended to the saved outfits |
| App.WardrobeApp.UpdateOutfit | App.tsx:336 | same-id outfits are replaced by the updated outfit |
| App.WardrobeApp.DeleteOutfit | App.tsx:336 | the outfits lose exactly those with that id; the calendar is untouched |
| App.WardrobeApp.SetTodayOutfit | App.tsx:336 | only today's calendar key is set to the outfit id |
| Seqs.Filter | components/Closet.tsx:67-71 | the kept elements come from the input and pass the test; every passing element is kept |
| Seqs.FilterConcat | components/Closet.tsx:67-71 | filtering distributes over concatenation, so relative order is kept |
| Seqs.FilterLength | components/Closet.tsx:73-76 | the length of a filter is the number of passing elements |
| Seqs.RemoveById | App.tsx:264 | survivors lack the id and come from the input; every element with another id survives; exactly the matching ones are removed |
| Seqs.RemoveByIdConcat | App.tsx:264 | removal by id distributes over concatenation, so the survivors keep their order |
| Seqs.ReplaceById | App.tsx:333 | same length; exactly the elements with the new element's id are replaced |
| Closet.CountIn | components/Closet.tsx:59-62 | a tag's count in one item's tags is positive iff the item has the tag |
| Closet.OccursIffTagged | components/Closet.tsx:57-65 | a tag occurs in the closet iff some item carries it |
| Closet.OccurrencesConcat | components/Closet.tsx:57-65 | tag occurrences add up over concatenated closets, duplicates included |
| Closet.CountTags | components/Closet.tsx:59-63 | the inner loop adds one count per tag of the item to the running tally |
| Closet.AllTagsWithCounts | components/Closet.tsx:57-65 | the nested loops yield exactly the tags that occur, each with its total number of occurrences |
| Closet.CategoryFilter.Name | components/Closet.tsx:55 | the filter buttons read `'All'` and the category strings, and only the `All` button reads `'All'` |
| Closet.FilterItems | components/Closet.tsx:67-71 | an item is shown iff it matches the category (or `'All'`) and has the selected tag (or no tag is selected) |
| Closet.ShowAll | components/Closet.tsx:67-71 | with `'All'` and no tag every item is shown |
| Closet.FilterItemsConcat | components/Closet.tsx:67-71 | the grid keeps closet order |
| Closet.CategoryCount | components/Closet.tsx:73-76 | the `'All'` count is the closet size |
| Closet.CategoryCountIsShown | components/Closet.tsx:67-76 | with no tag selected, a category's count is the number of items its button shows (the count ignores the selected tag, the grid does not) |
| Closet.CategoryCountsSum | components/Closet.tsx:73-76 | the five category counts add up to the `'All'` count |
| Closet.ToggleTag | components/Closet.tsx:151 | clicking the selected tag clears the selection; clicking another tag selects it |
| Closet.ToggleTagTwice | components/Closet.tsx:151 | clicking a tag twice from no selection ends with no selection |
| Closet.OpenDetail | components/Closet.tsx:78-85 | an item being processed does not open; otherwise the copy is the item with its attribute list defaulted to empty |
| Closet.AddAttribute | components/Closet.tsx:108-112 | the list grows by one `Material: Cotton` entry at the end, earlier entries and the other fields unchanged |
| Closet.UpdateAttribute | components/Closet.tsx:114-119 | only the named field of the given entry changes; length and other entries are kept; without an edited item or list nothing changes |
| Closet.UpdateWithSameValue | components/Closet.tsx:114-119 | writing a field's current value changes nothing |
| Closet.RemoveAttribute | components/Closet.tsx:121-125 | exactly the given entry is removed; without an edited item or list nothing changes |
| Closet.AddThenRemove | components/Closet.tsx:108-125 | removing the entry just added restores the item |
| Outfits.InScenarioConcat | components/Outfits.tsx:222-231 | a scenario's group keeps the outfits' relative order |
| Outfits.ScenarioKeys | components/Outfits.tsx:222-231 | the group keys are distinct and are exactly the non-empty scenarios that occur |
| Outfits.GroupStep | components/Outfits.tsx:224-229 | pushing one more outfit keeps the keys and lists equal to the grouping of the longer prefix |
| Outfits.GroupOutfits | components/Outfits.tsx:222-231 | the loop yields exactly one group per non-empty scenario, holding that scenario's outfits in order |
| Outfits.Dedup | components/Outfits.tsx:233-236 | the result has no duplicates and the same members |
| Outfits.DedupPrefix | components/Outfits.tsx:233-236 | de-duplicating a longer list extends the de-duplication of its prefix |
| Outfits.AvailableScenarios | components/Outfits.tsx:233-236 | the five defaults come first in order, no duplicates, and the rest are the outfits' non-empty scenarios |
| Outfits.SlotItem | components/Outfits.tsx:238-244 | a category's slot holds an item of that category, and is empty when no slot for it exists |
| Outfits.SlotItemFound | components/Outfits.tsx:238-244 | reading a category yields the item of its first slot whenever there is one |
| Outfits.SetSlot | components/Outfits.tsx:238-244 | an existing key keeps its position and only a slot of that category changes; a new key goes last, and only when the category had no slot |
| Outfits.SetSlotReads | components/Outfits.tsx:238-244 | after the update the category reads the new value and every other category reads as before |
| Outfits.SetSlotWellFormed | components/Outfits.tsx:238-244 | setting a category's slot to an item of that category keeps one slot per category |
| Outfits.SelectItem | components/Outfits.tsx:238-244 | re-selecting the held item clears its slot, another item replaces it, other slots are kept, and the evaluation is reset |
| Outfits.SelectedList | components/Outfits.tsx:246-248 | the selected list holds exactly the items in the slots |
| Outfits.SelectedListSingle | components/Outfits.tsx:246-248 | one slot lists its item when it has one and nothing otherwise |
| Outfits.SelectedListConcat | components/Outfits.tsx:246-248 | the list follows key order: the slots' lists concatenate |
| Outfits.OnePerCategory | components/Outfits.tsx:238-248 | the selected list has at most one item per category |
| Outfits.SelectTwice | components/Outfits.tsx:238-244 | selecting an item not held, then selecting it again, leaves its slot empty |
| Outfits.Evaluate | components/Outfits.tsx:250-262 | with fewer than two items or no answer nothing changes; otherwise the answer is stored and an empty name becomes `<scenario> Set` |
| Outfits.SavedOutfit | components/Outfits.tsx:264-279 | nothing is saved with no selection; otherwise the outfit has the selected items, id `outfit-<now>`, the defaults `New Look`, 85 and the manual review, and status generating |
| Outfits.AfterSave | components/Outfits.tsx:283-289 | after a save of a non-empty selection the slot map is empty (`{}`, no stale keys), the evaluation and name are cleared and the scenario kept; with nothing selected nothing changes |
| Outfits.DisplayProgress | components/Outfits.tsx:91 | the shown progress is the raw progress capped at 92 |
| Outfits.StageAt | components/Outfits.tsx:94 | the chosen stage is the last one whose threshold is at most the progress |
| Outfits.StageMessage | components/Outfits.tsx:94-95 | every non-negative progress has a message |
| Outfits.StageMonotone | components/Outfits.tsx:19-26 | more progress never moves back to an earlier stage |
| Outfits.FinalStage | components/Outfits.tsx:91-95 | from 92 on, the message is `Final Polish...` |
| Outfits.FirstGenerating | components/Outfits.tsx:199 | the first outfit whose status is generating, or none |
| Outfits.PreviewOutcome | components/Outfits.tsx:206-212 | success stores the URL and marks done; failure marks failed; nothing else changes |
| Outfits.PreviewFinished | components/Outfits.tsx:197-220 | only the first generating outfit is updated with the outcome |
| Outfits.GenerationProgresses | components/Outfits.tsx:197-220 | each preview round leaves fewer outfits generating |
| Calendar.DaysInMonth | components/TryOn.tsx:32 | months have 28 to 31 days; February has 29 exactly in leap years |
| Calendar.MonthStep | components/TryOn.tsx:32 | the day counts before successive months add up, and the year's months add up to its length |
| Calendar.NextDay | components/TryOn.tsx:39-50 | the next day of a valid date is valid |
| Calendar.NextDayIsNext | components/TryOn.tsx:39-50 | the next day is one day number later and one weekday later |
| Calendar.AddMonths | components/TryOn.tsx:63 | moving k months lands on a valid month exactly k months away |
| Calendar.ChangeMonth | components/TryOn.tsx:62-64 | the result is day 1 of the month k months away, with the year rolled over |
| Calendar.ChangeMonthBack | components/TryOn.tsx:62-64 | going k months and back returns to day 1 of the original month |
| Calendar.StartOffset | components/TryOn.tsx:35 | the first day's weekday lies in 0..6 |
| Calendar.GridDate | components/TryOn.tsx:38-52 | every grid cell holds a valid date |
| Calendar.GridConsecutive | components/TryOn.tsx:38-52 | neighbouring grid cells are consecutive days |
| Calendar.GridDayNumber | components/TryOn.tsx:38-52 | cell i is i days after the Sunday-aligned start |
| Calendar.GridWeekday | components/TryOn.tsx:35-52 | cell i falls on weekday i mod 7 |
| Calendar.MonthGrid | components/TryOn.tsx:28-55 | the loops build 42 cells of consecutive dates, marked current-month exactly for days 1..last |
| Calendar.AssignOutfit | components/TryOn.tsx:71-77 | only the selected date is set, overwriting any earlier outfit |
| Calendar.RemoveOutfit | components/TryOn.tsx:79-83 | only the selected date's key is removed |
| Calendar.FindOutfit | components/TryOn.tsx:59 | the index of the first outfit with the id, or none when no outfit has it |
| Calendar.SelectedOutfit | components/TryOn.tsx:57-60 | the date's outfit when it is mapped and the id exists; none for unmapped or dangling ids |
| Calendar.AssignThenSelect | components/TryOn.tsx:57-77 | after assigning an outfit to a date, that date shows that outfit |
| Calendar.RemoveThenSelect | components/TryOn.tsx:57-83 | after removing a date's outfit, the date shows none |
| Calendar.DeleteLeavesDangling | App.tsx:336 | deleting the outfit a date points at leaves the key in place but the date shows nothing |
| Discover.FindItem | components/Discover.tsx:34 | the first closet item with the id, or none when no item has it |
| Discover.ResolveItems | components/Discover.tsx:54 | resolved items come from the closet and carry requested ids |
| Discover.ResolveConcat | components/Discover.tsx:54 | resolution keeps the order of the ids |
| Discover.ResolveAllPresent | components/Discover.tsx:54 | when every id exists, the i-th resolved item is the i-th id's item |
| Discover.ResolveNonePresent | components/Discover.tsx:54 | when no id exists, nothing is resolved |
| Discover.SaveRecommendation | components/Discover.tsx:52-68 | a recommendation already saved changes nothing; otherwise its id is added and an outfit copying its fields with status done is produced |
| Discover.SaveIdempotent | components/Discover.tsx:53 | saving the same recommendation twice produces nothing the second time |
| Discover.Formatted | components/Discover.tsx:24-28 | each suggestion gets id `rec-<now>-<idx>` and generating status and keeps its fields |
| Discover.FormattedIdsDistinct | components/Discover.tsx:26 | the cards of one fetch have distinct ids |
| Discover.FetchRecommendations | components/Discover.tsx:19-46 | with fewer than two items or a failed call nothing changes; otherwise the old cards are kept and followed by exactly the formatted suggestions, all generating |
| Discover.WithPreview | components/Discover.tsx:36-38 | the card stops generating and gets the URL only on success |
| Discover.PreviewResult | components/Discover.tsx:36-38 | only the card with the id is updated |
| Discover.PreviewResultIdempotent | components/Discover.tsx:36-38 | applying the same preview result twice is applying it once |
| Discover.PreviewResultUnknown | components/Discover.tsx:36-38 | a result for an unknown card changes nothing |
| Mannequin.Dressed | components/ThreeModel.tsx:229-236 | a garment shows its image at opacity 1; none hides the shell at opacity 0; position is kept |
| Mannequin.DressOverrides | components/ThreeModel.tsx:242-244 | with a dress, torso, pelvis and legs show it and both arms are cleared |
| Mannequin.TopAndBottom | components/ThreeModel.tsx:245-247 | without a dress, torso and arms show the top, pelvis and legs the bottom |
| Mannequin.HeadAndNeckBare | components/ThreeModel.tsx:241-248 | head and neck are never dressed |
| Mannequin.Figure.constructor | components/ThreeModel.tsx:115-138 | the figure has all eight parts, each with a bare shell at the same position, arms at -0.28 and 0.28 |
| Mannequin.Figure.AddBodyPart | components/ThreeModel.tsx:85-110 | a part and its bare shell are added under the same name at the same position |
| Mannequin.Figure.UpdateTexture | components/ThreeModel.tsx:213-239 | the loop dresses exactly the named shells and leaves the others |
| Mannequin.Figure.ApplyEquipped | components/ThreeModel.tsx:241-248 | every shell is dressed as the slot assignment says; unassigned shells are kept |
| Mannequin.Figure.UpdateArms | components/ThreeModel.tsx:193-197 | the arms move to plus and minus 0.28 times the shoulder width, body and shell mirrored; textures are kept |
| Gemini.WithRetry | services/geminiService.ts:32-42 | at most retries + 1 calls; the first success is returned with no call after it; otherwise the last error |
| Gemini.RetryFirstSuccess | services/geminiService.ts:34 | the k-th call's success after k failures is the result, after k + 1 calls |
| Gemini.RetryAllFail | services/geminiService.ts:36-40 | when every call fails, the last error is rethrown after retries + 1 calls |
| Gemini.FirstInline | services/geminiService.ts:125-126 | the first part with inline data, or none when no part has it |
| Gemini.ScanForImage | services/geminiService.ts:125-127 | the early-return loop finds a PNG data URL iff some part has inline data |
| Gemini.RemoveBackground | services/geminiService.ts:111-131 | the first answered call decides: its first image part, else the original; if every call throws, the original |
| Gemini.RemoveBackgroundTotal | services/geminiService.ts:128-130 | the result is always the original or an image from one of the calls, so it never fails |
| Gemini.PreviewRequest | services/geminiService.ts:161-170 | the user photo's part comes first when given, then one part per item, then the prompt for that case |
| Gemini.PreviewCall | services/geminiService.ts:176-179 | one call succeeds iff it answers with an image part |
| Gemini.GenerateOutfitPreview | services/geminiService.ts:168-180 | the first call within the retries that returns an image decides the result; it fails iff no call returned one, and then with the last call's error |
| Gemini.PreviewIsPng | services/geminiService.ts:177 | a generated preview is a PNG data URL |
| Gemini.ResizeImage | services/geminiService.ts:7-9 | an empty string or one without `data:` is returned unchanged; otherwise the drawn image |
| Gemini.RemoteUrlsPassThrough | services/geminiService.ts:9 | remote `https:` URLs are never resized |
| Strings.Trim | smart-my-closet-ai/components/ClosetSection.tsx:148 | the result is the slice of the input left after removing white space from both ends: no white space at its ends and only white space outside it |
| Strings.JoinSplit | smart-my-closet-ai/components/ClosetSection.tsx:145-148 | joining the pieces of a split gives back the string |
| Strings.SplitJoin | smart-my-closet-ai/components/ClosetSection.tsx:145-148 | splitting a join of comma-free pieces gives back the pieces |
| SmartTypes.Category.Value | smart-my-closet-ai/types.ts:2-8 | no category's string is `'All'` |
| SmartTypes.CategoriesEnumerated | smart-my-closet-ai/types.ts:2-8 | five categories with distinct strings; the dress string is `'Dresses'`, unlike the first prototype |
| SmartTypes.TabNamed | smart-my-closet-ai/types.ts:33 | a string names a tab iff it is one of the four tab names, and then exactly that tab |
| SmartApp.InitialClosetDistinct | smart-my-closet-ai/App.tsx:10-32 | the seeded closet has three garments with distinct ids and distinct categories |
| SmartApp.AddItem | smart-my-closet-ai/App.tsx:41-43 | the closet grows by one with the new garment first and the rest unchanged |
| SmartApp.UpdateItem | smart-my-closet-ai/App.tsx:45-47 | same length; exactly the garments with the updated id are replaced |
| SmartApp.DeleteItem | smart-my-closet-ai/App.tsx:49-51 | survivors lack the id and every garment with another id survives |
| SmartApp.SaveOutfit | smart-my-closet-ai/App.tsx:53-55 | the outfit list grows by one with the new outfit first |
| SmartApp.UpdateUnknownId | smart-my-closet-ai/App.tsx:45-47 | an update with an unknown id leaves the closet unchanged |
| SmartApp.DeleteKeepsOrder | smart-my-closet-ai/App.tsx:49-51 | deletion distributes over concatenation, so survivors keep their order |
| SmartApp.AddThenDelete | smart-my-closet-ai/App.tsx:41-51 | deleting a garment just added under a fresh id restores the closet |
| SmartApp.AddKeepsUniqueIds | smart-my-closet-ai/App.tsx:41-43 | adding under a fresh id keeps ids unique |
| SmartCloset.FilterButtons | smart-my-closet-ai/components/ClosetSection.tsx:19 | the buttons are `'All'` then the five category strings in order |
| SmartCloset.FilterItems | smart-my-closet-ai/components/ClosetSection.tsx:20 | `'All'` shows every garment; any other filter shows exactly the garments of that category |
| SmartCloset.ButtonCount | smart-my-closet-ai/components/ClosetSection.tsx:71 | the `'All'` number is the closet size |
| SmartCloset.CountIsShown | smart-my-closet-ai/components/ClosetSection.tsx:71 | every button's number is the length of the grid it selects |
| SmartCloset.FilterKeepsOrder | smart-my-closet-ai/components/ClosetSection.tsx:20 | the grid keeps closet order |
| SmartCloset.CountsSum | smart-my-closet-ai/components/ClosetSection.tsx:71 | the five category numbers add up to the `'All'` number |
| SmartCloset.NewItem | smart-my-closet-ai/components/ClosetSection.tsx:37-44 | the id is the decimal upload time; an absent category, tag list or colour (or an empty colour) falls back to Tops, no tags and `'white'`; the cleaned image is shown and the original kept |
| SmartCloset.NewItemIdsDistinct | smart-my-closet-ai/components/ClosetSection.tsx:38 | uploads at different milliseconds get different ids |
| SmartCloset.ParseTags | smart-my-closet-ai/components/ClosetSection.tsx:148 | every saved tag is non-empty, trimmed and comma-free, and there are no more tags than comma-separated pieces |
| SmartCloset.SaveEdit | smart-my-closet-ai/components/ClosetSection.tsx:147-150 | the saved garment's tags are the parsed field and every other field is the edited garment's |
| SmartCloset.JoinCommaSpace | smart-my-closet-ai/components/ClosetSection.tsx:145 | joining with `", "` is joining with `","` after a space is put before every tag but the first |
| SmartCloset.ParseTagsString | smart-my-closet-ai/components/ClosetSection.tsx:145-148 | parsing the joined tags gives back the tags when each is non-empty, trimmed and comma-free |
| SmartCloset.SaveUnedited | smart-my-closet-ai/components/ClosetSection.tsx:143-150 | opening the dialog and saving without edits gives back the garment |
| SmartCloset.SaveTwice | smart-my-closet-ai/components/ClosetSection.tsx:143-150 | a second unedited save after a save changes nothing |
| SmartTryOn.FirstOfCategory | smart-my-closet-ai/components/TryOnSection.tsx:22 | the first equipped garment of the category, or none when there is none |
| SmartTryOn.ToggleEquip | smart-my-closet-ai/components/TryOnSection.tsx:19-28 | clicking the worn garment takes off everything with its id; clicking another garment takes off its category and appends it last |
| SmartTryOn.FilterKeepsOnePerCategory | smart-my-closet-ai/components/TryOnSection.tsx:24-26 | a filter keeps at most one garment per category |
| SmartTryOn.ToggleKeepsOnePerCategory | smart-my-closet-ai/components/TryOnSection.tsx:21-26 | toggling keeps at most one garment per category, accessories included |
| SmartTryOn.OtherCategoriesKept | smart-my-closet-ai/components/TryOnSection.tsx:24-26 | the garments of other categories stay on in their order |
| SmartTryOn.ToggleTwice | smart-my-closet-ai/components/TryOnSection.tsx:22-26 | with nothing of its category on, putting a garment on appends it, and taking it off restores the list |
| SmartTryOn.SaveLook | smart-my-closet-ai/components/TryOnSection.tsx:51-58 | nothing is saved when nothing is on; otherwise the outfit's garments are exactly the equipped list; the id and the creation time come from separate clock reads |

## Left out

- JSX rendering, CSS, modals, toasts, `confirm`/`alert` dialogs and `FileReader`: these are UI and browser I/O. `Logout` models the confirmed path only.
- The hosted model calls (`generateContent`, `generateVideos`) and their prompts: each call's outcome is an input. The same holds for `getAIRecommendations`, `analyzeImageForItems`, `evaluateOutfit` and `analyzeClosetItem`.
- The `removeBackground` and preview retries' 1500 ms waits, `setInterval`/`setTimeout`, and the 800 ms and 50 ms hydration delays: time is the `now` parameter, and a tick is an explicit call.
- The randomised progress animation (components/Outfits.tsx:86-90): progress is an integer input.
- `compressImage`, `resizeImage`'s canvas drawing and `generateLocalPreview`: canvas and floating-point image maths. The drawn image is an input.
- `toISOString` and UTC/time-zone effects, and JavaScript's mapping of years 0-99 to 1900-1999: the calendar uses integer year, month and day.
- IndexedDB's asynchronous open, transactions and quota errors. The store is an abstract map, and a failed call is the `Fail` outcome of `Get`. The persist error toast and `loadUserData`'s catch path (App.tsx:151-155) are not modelled.
- Stored values of unexpected shapes are one `OtherValue` case, not every JavaScript value that `Array.isArray` or truthiness would classify.
- The integer-like-key-first ordering of JavaScript object keys: tag counts are a map, and scenario groups are listed in first-appearance order.
- The profile-photo handlers (App.tsx:343, 349) and the Discover photo choice `bodyPhotoUrl || photoUrl` (App.tsx:334): a plain field update and a choice, passed to the model as the optional user photo.
- `viewingOutfit` bookkeeping and the quick set-today button in Outfits.tsx: UI state around `SetTodayOutfit`.
- The texture cache-busting query string, asynchronous texture loading, and the figure's scaling and geometry in ThreeModel.tsx: 3D rendering. Positions are reals.
- The second prototype's body-metrics analysis and video generation (TryOnSection.tsx:30-49, OutfitsSection.tsx, services/gemini.ts, ThreeScene.tsx) are not part of this model. Body metrics are only a record with its initial value.
- The `toLocaleDateString` label of a saved look is an input string.
- Closet.UpdateAttribute: requires an index inside the attribute list. The source would write `undefined` fields into a new entry past the end, and the dialog never passes such an index.
- Closet.AllTagsWithCounts: tags are assumed not to be `Object.prototype` member names. In the source, `counts` is a plain `{}` (components/Closet.tsx:58-61): a tag `"constructor"` counts as the string `Object + 1`, and a tag `"__proto__"` goes to the prototype setter and never appears in the result. The model counts both like any other tag.
- Outfits.GroupOutfits: scenarios are assumed not to be `Object.prototype` member names. In the source, `groups` is a plain `{}` (components/Outfits.tsx:223-228): for a scenario such as `"constructor"`, `"toString"` or `"__proto__"`, `groups[o.scenario]` is already truthy and `.push` throws, so the gallery fails to render. The model gives such a scenario its group.
- Outfits.PreviewFinished, Outfits.GenerationProgresses: one preview round runs to completion before the next begins. The source's effect (components/Outfits.tsx:197-220) has no in-flight guard and re-runs whenever `outfits` or `userProfile` change, so the same outfit can be sent twice. A late failure can also write `'failed'` from a stale copy over an outfit that is already `'done'`, dropping its preview URL. Overlapping rounds are not modelled.
- Outfits.Evaluate, Outfits.SavedOutfit, Discover.SaveRecommendation: scores are `real`, not IEEE doubles, so `NaN` (falsy in `evaluation?.score || 85`) and rounding are not modelled.
- App.UploadedItems, Outfits.SavedOutfit, Discover.SaveRecommendation: one `now` stands for the several `Date.now()` calls the source makes while building one record. The source's calls can differ by a millisecond.
- Discover.Formatted, Discover.FetchRecommendations: one `now` stands for the clock read each card makes (components/Discover.tsx:26). Two cards of one fetch may carry different times in the source, while the model stamps them all with `now`; the ids stay distinct either way through the index.
