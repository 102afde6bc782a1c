# Setlist song sequences, modelled in Dafny

This project models the core of a setlist web application. A worship or
band leader keeps a list of songs. Each song has a title, an optional key and
a *sequence*: the ordered parts of the arrangement. There are ten base
elements (Verse, Pre-Chorus, Chorus, …, each possibly numbered by an
occurrence) and four flow elements (Drums, Breakdown, Build, Pause).

The model covers:

- the client-side song store (`SongStore.Store`): the song list, the selected
  song, and the one pending debounced save. It also covers the pure sequence
  transformations its actions apply (`SequenceOps`).
- the server's song table (`SongTable.Database`) and its three handlers:
  listing and creating songs (`SongsRoute.Get`, `SongsRoute.Post`), and the
  two-phase reorder (`ReorderRoute.Put`). The reorder first parks every listed
  song at `-1000 - i`, then gives it its position `i`.
- the views' pure logic: the sequence summary line and drag handler
  (`SequenceEditor`), an item's label and buttons (`SequenceItemView`), the
  song list's drag handler (`SongList`), and Previous/Next (`DashboardHeader`).
- the abbreviation and colour tables (`Abbreviations`, `Colors`) and the
  Tailwind safelist the colours must appear in.
- the login/registration schemas (`AuthValidation`) and the `register`
  server action over a user table (`AuthAction`).

Network replies, database faults, sessions, generated ids, the password hash
and the email-format check are not computed here. They are parameters:
`Option` replies, `ok`/`queryOk`/`phase1Ok` flags, `Option<UserId>` sessions,
`freshId`/`newId`, `hash` and `isEmail`.

Three behaviours one might expect that the code does not have; the model
follows the code:

- The store never renumbers a sequence item's `order` after a delete or
  move. It also never computes occurrence numbers: `addSequenceItem` stores
  whatever occurrence the caller passed.
- No action reloads songs after a failed save.
- `SongList` asks the store for `reorderSongs`, which the store neither
  declares nor defines. A drop onto another song therefore calls `undefined`
  (`SongList.SongDropAsWritten`), and no song reorder exists in the client.

The per-user uniqueness of `order` during a reorder holds under one more
hypothesis than the ids being distinct, covering the user's songs and the
orders being nonnegative. The orders must already be distinct before the
reorder. The lemmas carry it as a `requires`.

## Model

| member | source | states |
|---|---|---|
| Types.ParseElement | src/types/index.tsx:18-29 | a name is parsed to an element only if that element's name is exactly the input |
| Types.ElementNameRoundTrip | src/types/index.tsx:18-29 | every element name (`ElementName`, the string values of `BaseElement` and `FlowElement`) parses back to its element |
| Types.ElementNamesDistinct | src/types/index.tsx:18-29 | the fourteen element names are pairwise distinct |
| Types.SongIds | src/components/DashboardHeader.tsx:13 | the id list has one entry per song, position by position |
| Types.ItemIds | src/components/SequenceEditor.tsx:40-45 | the id list has one entry per item, position by position |
| Types.FindIndex | src/components/SongList.tsx:59-60 | the result is -1 exactly when the id is absent; otherwise it is the first position holding it |
| Text.NatToString | src/components/SequenceEditor.tsx:68 | the decimal text of a natural number is non-empty, all digits and has no leading zero (its first digit is `0` only for the number 0, which prints as the single digit `0`) |
| Text.IntToString | src/components/SequenceItem.tsx:59 | printing an integer: a nonnegative value prints as digits whose value is the number; a negative one as `-` followed by digits whose value is its magnitude; with no leading zero in either case |
| Text.NatToStringRoundTrip | src/components/SequenceEditor.tsx:68 | reading the printed digits back gives the number |
| Text.IntToStringInjective | src/components/SequenceItem.tsx:59 | different integers print differently |
| Text.Join | src/components/SequenceEditor.tsx:70 | joining a single part gives that part |
| Text.JoinAppend | src/components/SequenceEditor.tsx:70 | joining a concatenation is the two joins with one separator between them |
| Text.JoinEmpty | src/components/SequenceEditor.tsx:70 | with a non-empty separator, the join is empty exactly for no parts or one empty part |
| SequenceOps.Filter | src/store/songStore.ts:99 | `filter` keeps exactly the elements satisfying the predicate and never grows the list |
| SequenceOps.FilterIsSubsequence | src/store/songStore.ts:99 | `filter` keeps the survivors in their original relative order |
| SequenceOps.FilterCount | src/store/songStore.ts:99 | `filter` drops exactly the rejected elements, counted with multiplicity |
| SequenceOps.FilterKeepsAll | src/store/songStore.ts:99 | `filter` with a predicate true everywhere returns the list unchanged |
| SequenceOps.RemoveAt | src/store/songStore.ts:142 | `splice(i, 1)` removes exactly the element at i: the list is one shorter, the elements before i stay put and the ones after move down by one |
| SequenceOps.InsertAt | src/store/songStore.ts:143 | `splice(i, 0, x)` puts x at i: the list is one longer, the elements before i stay put and the ones from i on move up by one |
| SequenceOps.RemoveInsert | src/store/songStore.ts:141-143 | inserting then removing at the same place restores the list, and the inserted value sits there |
| SequenceOps.InsertRemove | src/store/songStore.ts:141-143 | removing then re-inserting the same element at the same place restores the list |
| SequenceOps.AppendItem | src/store/songStore.ts:68-79 | the new item goes last with the generated id, given type and element name, `order` = old length, no note, and an occurrence only for base items; earlier items are unchanged |
| SequenceOps.RemoveItem | src/store/songStore.ts:99 | the remaining items are exactly those whose id differs |
| SequenceOps.RemoveItemSpec | src/store/songStore.ts:97-100 | deleting keeps the other items in order, shortens by the number of matching items, and is a no-op for an absent id |
| SequenceOps.SetNote | src/store/songStore.ts:118-123 | ids and positions are unchanged, matching items get the note, and every other field and item is unchanged |
| SequenceOps.LastNoteWins | src/store/songStore.ts:114-135 | editing the same item's note twice equals editing it once with the second note |
| SequenceOps.Move | src/store/songStore.ts:141-143 | the moved item lands at the new index, the result is a permutation, and removing it gives the list minus the old position |
| SequenceOps.MoveIdentity | src/store/songStore.ts:141-143 | moving an item to its own index changes nothing |
| SequenceOps.MoveRoundTrip | src/store/songStore.ts:141-143 | moving back from the new index to the old one undoes a move |
| SequenceOps.MoveAt | src/store/songStore.ts:141-143 | position by position: items between the two indices shift by one, all others stay |
| SequenceOps.ReplaceSong | src/store/songStore.ts:84-86 | the ids are unchanged; entries with the updated song's id become it, the others are untouched |
| SequenceOps.ReplaceSongAt | src/store/songStore.ts:264-266 | entries with the given id become the server's song, the others are untouched |
| SequenceOps.RemoveSong | src/store/songStore.ts:215 | the remaining songs are exactly those whose id differs |
| SequenceOps.RemoveSongKeepsOrder | src/store/songStore.ts:215 | deleting a song keeps the others in order and leaves no song with that id |
| SongStore.Store.constructor | src/store/songStore.ts:27-29 | the store starts with no songs, no selection and no pending save |
| SongStore.Store.SetSongs | src/store/songStore.ts:31 | replaces the list only |
| SongStore.Store.SetSelectedSong | src/store/songStore.ts:33 | replaces the selection only |
| SongStore.Store.AddSong | src/store/songStore.ts:35-58 | posts title, key and an empty sequence; on success appends and selects the server's song, otherwise changes nothing |
| SongStore.Store.DeleteSong | src/store/songStore.ts:207-221 | `deleteSong` (lines 60-62) only awaits `deleteSongFromDB`; on a successful request every song with the id is removed and the selection cleared exactly when it has that id; a failed request changes nothing |
| SongStore.Store.LoadSongs | src/store/songStore.ts:162-173 | on success replaces the list with the server's; otherwise changes nothing |
| SongStore.Store.SaveSong | src/store/songStore.ts:175-191 | posts the whole song; on success appends the server's copy and leaves the selection alone |
| SongStore.Store.DebounceSave | src/store/songStore.ts:224-231 | the given song replaces whatever save was pending |
| SongStore.Store.TimerElapsed | src/store/songStore.ts:231-244 | the delay elapsing writes exactly the pending song and empties the slot |
| SongStore.Store.Commit | src/store/songStore.ts:76-90 | the updated song becomes the selection, replaces its entry in the list, and is the pending save |
| SongStore.Store.AddSequenceItem | src/store/songStore.ts:64-91 | without a selection nothing changes; otherwise the selection, its list entry and the pending save all become the song with the item appended |
| SongStore.Store.DeleteSequenceItem | src/store/songStore.ts:93-112 | the same, with the item's id filtered out |
| SongStore.Store.UpdateNote | src/store/songStore.ts:114-135 | the same, with the note set on the matching items |
| SongStore.Store.ReorderSequence | src/store/songStore.ts:137-160 | the same, with the item moved from the old index to the new one |
| SongStore.Store.UpdateSong | src/store/songStore.ts:247-272 | sends the selected song's sequence (or none) whatever id is named; on success replaces the entries with that id, and the selection only when it has that id |
| SongStore.BurstWritesLast | src/store/songStore.ts:224-244 | after any burst of debounced saves, the one write sent is the last song of the burst |
| SongTable.OwnerOrdersIgnoreOthers | src/app/api/songs/route.ts:41 | adding or replacing another user's row leaves this user's orders unchanged |
| SongTable.Database.constructor | src/app/api/songs/route.ts:15-22 | the table starts with the given rows |
| SongsRoute.InsertPos | src/app/api/songs/route.ts:19-21 | entries before the insertion point have a smaller `order`, the entry at it an `order` at least as large |
| SongsRoute.InsertSorted | src/app/api/songs/route.ts:19-21 | inserting into a sorted list keeps it sorted, adds exactly that entry at its insertion point and shifts the later entries by one |
| SongsRoute.InsertedAt | src/app/api/songs/route.ts:19-21 | splicing an entry in where its order fits keeps the listing sorted and adds exactly that entry |
| SongsRoute.DistinctAfterInsert | src/app/api/songs/route.ts:15-22 | inserting a new id keeps the ids of the listing distinct |
| SongsRoute.Get | src/app/api/songs/route.ts:8-29 | 401 without a session user, 500 when the query fails, otherwise 200 and exactly that user's songs, each once, ascending by `order` (statuses as `Status`, whose `Code` is the HTTP number) |
| SongsRoute.LastOrder | src/app/api/songs/route.ts:40-43 | none exactly when the user has no songs; otherwise the user's greatest order |
| SongsRoute.Post | src/app/api/songs/route.ts:31-62 | 401 or 500 leave the table alone; otherwise one row is added with the user, title, key, the sequence or an empty one, and order 0 for a first song or the user's maximum + 1; the user's orders stay distinct |
| ReorderRoute.ListedIds | src/app/api/songs/reorder/route.ts:29 | only each entry's id is used, position by position; the client's `order` is ignored |
| ReorderRoute.TargetValues | src/app/api/songs/reorder/route.ts:32 | the phase targets (`Target`: `-1000 - i` when parking, `i` when renumbering): parking values are at most -1000, and distinct positions get distinct parking and final values |
| ReorderRoute.AppliedFrame | src/app/api/songs/reorder/route.ts:28-44 | a phase's updates change no key and no field other than `order` |
| ReorderRoute.OwnerKept | src/app/api/songs/reorder/route.ts:28-44 | every row survives a phase's updates with its owner |
| ReorderRoute.OrderAt | src/app/api/songs/reorder/route.ts:28-44 | with distinct ids, once its update has run the song at list position i has that phase's target for i |
| ReorderRoute.UnlistedKept | src/app/api/songs/reorder/route.ts:28-44 | a row not among the listed ids updated so far is unchanged |
| ReorderRoute.AppliedOrders | src/app/api/songs/reorder/route.ts:28-44 | `Applied`, the table after the first k updates of a phase: the first k listed songs carry their target values, and every other row is unchanged |
| ReorderRoute.RunPhase | src/app/api/songs/reorder/route.ts:28-35 | the loop of updates gives the fully applied phase when every id is a row of the user, and fails as a whole otherwise |
| ReorderRoute.Put | src/app/api/songs/reorder/route.ts:13-62 | 401 without a session user, 500 for an unparseable body, 400 for a missing or non-array `songs`, 500 and no change when phase 1 fails, 500 with the songs parked when phase 2 fails, 200 with the songs renumbered otherwise |
| ReorderRoute.RenumberedOrders | src/app/api/songs/reorder/route.ts:37-44 | after both phases (`Renumbered`, phase 2 applied to the `Parked` table) each listed song's order is its list position, and other users' and unlisted songs are unchanged |
| ReorderRoute.ParkingKeepsOrdersDistinct | src/app/api/songs/reorder/route.ts:28-35 | with distinct ids, distinct nonnegative prior orders, every intermediate state of phase 1 keeps the user's orders distinct |
| ReorderRoute.RenumberingOrderAt | src/app/api/songs/reorder/route.ts:37-44 | midway through phase 2, updated songs have their position and the rest are still parked |
| ReorderRoute.RenumberingKeepsOrdersDistinct | src/app/api/songs/reorder/route.ts:37-44 | when the list covers the user's songs, every intermediate state of phase 2 keeps the user's orders distinct |
| ReorderRoute.DirectRenumberingCollides | src/app/api/songs/reorder/route.ts:28-44 | without the parking phase, swapping two songs gives both the same order after the first update |
| ReorderRoute.ListingFollowsSubmittedOrder | src/app/api/songs/reorder/route.ts:37-46 | after a successful reorder covering the user's songs, the listing returns them exactly in the submitted order |
| ReorderRoute.ListingIsPositions | src/app/api/songs/route.ts:19-21 | a sorted listing whose orders are exactly the positions 0..n-1 lists the ids in position order |
| ReorderRoute.PositionsInOrder | src/app/api/songs/route.ts:19-21 | strictly increasing orders covering 0..n-1 are exactly 0..n-1 |
| ReorderRoute.LowerBound | src/app/api/songs/route.ts:19-21 | strictly increasing nonnegative orders are at least their index |
| ReorderRoute.PositionAt | src/app/api/songs/route.ts:19-21 | under the same hypotheses each order equals its index |
| Abbreviations.GetAbbreviation | src/utils/abbreviations.ts:18-20 | a known name gets its table entry, an unknown name is returned unchanged, and non-empty input gives non-empty output |
| Abbreviations.EveryElementHasEntry | src/utils/abbreviations.ts:1-16 | every base and flow element's name has its own table entry |
| Abbreviations.ExpandAbbreviation | src/utils/abbreviations.ts:1-16 | reading an abbreviation back gives an element whose abbreviation it is |
| Abbreviations.AbbreviationRoundTrip | src/utils/abbreviations.ts:1-16 | every abbreviation of the `elementAbbreviations` table (`Abbreviation`) reads back to its element |
| Abbreviations.AbbreviationsDistinct | src/utils/abbreviations.ts:2-15 | the fourteen abbreviations are pairwise distinct |
| Colors.Render | src/utils/colors.ts:1-32 | a class renders to a non-empty class name |
| Colors.Palette | src/utils/colors.ts:1-32 | the background and hover classes of a hue's entry are in that hue |
| Colors.GetElementColors | src/utils/colors.ts:1-40 | a name in the `elementColors` table (`ColorEntry`: Intro, Verse, Pre-Chorus, Chorus, Tag, Bridge) gets its entry, any other name the blue default; either way the result is one hue's palette (background 50%, hover 70%, numeral 30% and hover 50%) and the hue is never purple |
| Colors.MissingEntryIsVerse | src/utils/colors.ts:7-40 | a name without an entry gets the same colours as Verse: the default equals the Verse entry |
| Colors.FlowElementsUseDefault | src/utils/colors.ts:34-40 | every flow element gets the default |
| Colors.HueElement | src/utils/colors.ts:1-32 | a hue read back to an element names an element whose entry is that hue's palette |
| Colors.EntryHueReadsBack | src/utils/colors.ts:1-32 | the hue of each element's entry reads back to that element |
| Colors.EntriesDistinct | src/utils/colors.ts:1-32 | distinct elements with an entry get distinct backgrounds |
| Colors.SameHue | src/utils/colors.ts:1-40 | within every result, background, hover and numeral classes share one hue, never purple |
| Colors.ClassesSafelisted | tailwind.config.ts:65-98 | every class a result holds is in the safelist |
| Colors.HueClassesSafelisted | tailwind.config.ts:65-98 | the four classes of each of the six table hues are in the safelist (`Safelist`, the configuration's list in its order) |
| Colors.PaletteNumeralText | src/utils/colors.ts:1-32 | a palette's numeral attribute is its two numeral classes joined by one space |
| Colors.NumeralIsTwoClasses | src/utils/colors.ts:1-40 | the numeral attribute is exactly two safelisted classes separated by one space |
| Colors.HueNameDelimited | tailwind.config.ts:65-98 | a hue name followed by a dash determines the hue and the rest |
| Colors.BackgroundInjective | tailwind.config.ts:65-98 | the background class name determines its hue and opacity |
| Colors.RenderInjective | tailwind.config.ts:65-98 | distinct classes render to distinct class names |
| SequenceEditor.SummaryEntry | src/components/SequenceEditor.tsx:65-69 | the entry starts with the abbreviation; it is longer exactly for a base item with occurrence > 1, and then the rest is the occurrence's plain decimal text (`V2`, never `V02`) and reads back as that occurrence |
| SequenceEditor.DisplayedSummary | src/components/SequenceEditor.tsx:84 | the paragraph is never empty: the summary or the placeholder |
| SequenceEditor.SummaryAppend | src/components/SequenceEditor.tsx:65-70 | the summary of two runs of items is their summaries joined by `, ` |
| SequenceEditor.SummaryAppendItem | src/components/SequenceEditor.tsx:65-70 | `Summary`, the `sequenceSummary` join: one more item adds exactly its entry after `, `, so there is one entry per item, in sequence order |
| SequenceEditor.EntryEmpty | src/components/SequenceEditor.tsx:65-69 | an entry is empty only for an empty element name with no occurrence shown |
| SequenceEditor.PlaceholderShown | src/components/SequenceEditor.tsx:65-84 | the placeholder is shown exactly for an empty sequence or a single item printing nothing (or a summary equal to the placeholder text) |
| SequenceEditor.SequenceDragEnd | src/components/SequenceEditor.tsx:36-51 | nothing is called without a drop target, on a drop onto itself, or without a selection; otherwise each index is the first position of its id, -1 exactly when absent, and the two differ |
| SequenceEditor.HandleDragEnd | src/components/SequenceEditor.tsx:36-51 | after a drop onto another item, the dragged item sits where the target was, the sequence is a permutation of the old one, and a save is pending |
| SequenceItemView.FilterAtLeastTwo | src/components/SequenceItem.tsx:11-14 | more than one element survives a filter exactly when two positions, in order, satisfy the predicate |
| SequenceItemView.MultipleOccurrencesIff | src/components/SequenceItem.tsx:9-15 | the label test (`HasMultipleOccurrences`) holds exactly when two base items of the selected song have the element; flow items never count |
| SequenceItemView.DefaultOccurrence | src/components/SequenceItem.tsx:109 | `occurrence \|\| 1` is the occurrence when that is set and non-zero, and exactly 1 when it is absent or 0; so never 0 |
| SequenceItemView.OccurrenceText | src/components/SequenceItem.tsx:59 | `occurrence \|\| '1'` prints the same as the defaulted occurrence |
| SequenceItemView.DisplayText | src/components/SequenceItem.tsx:57-61 | the label starts with the element name; it is longer exactly for a base item whose element occurs more than once, and then adds a space and the defaulted occurrence |
| SequenceItemView.DisplayTextsDistinguishOccurrences | src/components/SequenceItem.tsx:57-61 | base items with the same repeated element and different defaulted occurrences get different labels |
| SequenceItemView.ItemBackground | src/components/SequenceItem.tsx:75-77 | blue at 50% exactly for base items, purple for flow items |
| SequenceItemView.ItemBackgroundSafelisted | tailwind.config.ts:65-98 | both row backgrounds are in the safelist |
| SequenceItemView.DuplicateButton | src/components/SequenceItem.tsx:105-115 | shown exactly for base items with a handler; it passes the element and the defaulted occurrence, and names them in its title |
| SequenceItemView.AddNextButton | src/components/SequenceItem.tsx:116-124 | shown exactly for base items with a handler; it passes the current defaulted occurrence while its title names the next one |
| SequenceItemView.AddNextTitleNamesNext | src/components/SequenceItem.tsx:118-120 | the number ending the title reads back as one more than the occurrence the click passes |
| SongList.SongDragEnd | src/components/SongList.tsx:55-66 | a call happens exactly with a drop target, different ids and both ids listed; the indices are in range, distinct and hold those ids |
| SongList.EveryRealDropThrows | src/components/SongList.tsx:38-67 | dropping any listed song onto another listed song calls the undefined `reorderSongs` (`SongDropAsWritten`) |
| SongList.OtherDropsCallNothing | src/components/SongList.tsx:55-66 | without a drop target, on a drop onto itself or with an id not in the list, the handler calls nothing |
| DashboardHeader.SelectedIndex | src/components/DashboardHeader.tsx:13 | -1 exactly when the selected id is not listed; otherwise a position holding that id |
| DashboardHeader.PreviousSelection | src/components/DashboardHeader.tsx:11-17 | moves only with a selection at index i > 0, to `songs[i-1]`, always a listed song |
| DashboardHeader.NextSelection | src/components/DashboardHeader.tsx:19-25 | moves only with a selection at index i < length-1, to `songs[i+1]`; an unlisted selection moves to the first song |
| DashboardHeader.IndexOfListed | src/components/DashboardHeader.tsx:13 | with distinct ids a listed song is found at its own position |
| DashboardHeader.StepBack | src/components/DashboardHeader.tsx:11-17 | with distinct ids, Previous from the song at position k selects the song at k-1 |
| DashboardHeader.StepForward | src/components/DashboardHeader.tsx:19-25 | with distinct ids, Next from the song at position k selects the song at k+1 |
| DashboardHeader.NextThenPrevious | src/components/DashboardHeader.tsx:11-25 | with distinct ids, Next then Previous returns to the song with the original id |
| DashboardHeader.PreviousThenNext | src/components/DashboardHeader.tsx:11-25 | with distinct ids, Previous then Next returns to the song with the original id |
| DashboardHeader.ButtonsMatchHandlers | src/components/DashboardHeader.tsx:35-48 | the buttons' `disabled` flags (`PreviousDisabled`, `NextDisabled`, comparing by value): for a listed selection with distinct ids, each button is enabled exactly when its handler moves |
| DashboardHeader.HandlePrevious | src/components/DashboardHeader.tsx:11-17 | only the selection changes, to the previous song when there is one |
| DashboardHeader.HandleNext | src/components/DashboardHeader.tsx:19-25 | only the selection changes, to the next song when there is one |
| AuthValidation.LeadingLetters | src/lib/validations/auth.ts:13 | the count of leading name letters; the next character, if any, is not one |
| AuthValidation.MatchesFullNameIff | src/lib/validations/auth.ts:13 | the scan `MatchesFullName` accepts exactly the names the pattern matches: letters, one space, letters, anything |
| AuthValidation.FullNameLength | src/lib/validations/auth.ts:11-13 | a matching name has at least three characters |
| AuthValidation.NameIssues | src/lib/validations/auth.ts:9-13 | no message exactly for length 2..50 inclusive and a matching name; each message appears exactly when its check fails; messages come in the schema's order (minimum, maximum, pattern) |
| AuthValidation.EmailIssues | src/lib/validations/auth.ts:14 | no message exactly for a non-empty, well-formed email; each message exactly when its check fails; the `min` message comes before the `email` one |
| AuthValidation.PasswordIssues | src/lib/validations/auth.ts:15-18 | no message exactly for length 6..50 inclusive; a too-short or too-long password gets exactly its one message |
| AuthValidation.LoginIssues | src/lib/validations/auth.ts:3-6 | valid exactly for a non-empty, well-formed email and a password of at least 6 characters |
| AuthValidation.RegisterIssues | src/lib/validations/auth.ts:8-23 | valid exactly when name, email and password all pass |
| AuthValidation.MinimumImpliedByPattern | src/lib/validations/auth.ts:11-13 | a name too short for the minimum also fails the pattern |
| AuthValidation.RegisterValidImpliesNonEmpty | src/lib/validations/auth.ts:8-23 | a valid registration has non-empty fields |
| AuthAction.FaultMessage | src/actions/auth.ts:57-67 | the message starts with `Registration failed: `, followed by an `Error`'s own message, or by `Unknown error` for anything else thrown |
| AuthAction.FaultMessageIsNotFixed | src/actions/auth.ts:18-67 | a caught fault's message is never one of the two fixed answers, so the message tells the three kinds of failure apart |
| AuthAction.RegisterOutcome | src/actions/auth.ts:12-69 | success exactly for non-empty fields, no fault and an unused email; success adds one user with the hashed password and answers without it; failures leave the table alone; empty fields answer `All fields are required`, a fault of the lookup (checked first) or of the insert answers that fault's message, and a taken email answers `Email already exists` |
| AuthAction.RegisterKeepsEmailsUnique | src/actions/auth.ts:25-44 | registering keeps emails unique |
| AuthAction.SecondRegistrationFails | src/actions/auth.ts:29-34 | after a successful registration, another with the same email fails and adds nobody |
| AuthAction.UserRegistry.constructor | src/actions/auth.ts:38-44 | the user table starts with the given users |
| AuthAction.Register | src/actions/auth.ts:12-69 | the early returns, lookup and insert give exactly the outcome above, response and table |

## Left out

- Network, timers and concurrency: `fetch`, the 5000 ms delay and saves still in flight when another starts. A network reply is an `Option` parameter, and the debounce is one replaceable pending slot.
- `updateSongInDB` (src/store/songStore.ts:193-205): it only sends a request and changes no client state.
- `reorderSongs`: the store does not define it. The model records only that the song list's handler calls it; no client-side song reorder is modelled.
- SongStore.Store.ReorderSequence: requires both indices in range. The out-of-range `splice` behaviour, such as an index of -1, is not modelled.
- SequenceEditor.HandleDragEnd: requires both ids of the drag to be in the selected sequence, which the sortable list guarantees. The -1 index is therefore never passed on.
- Occurrence auto-numbering and renumbering of item `order`: the code performs neither.
- String lengths are counted in Unicode characters, not UTF-16 code units, so names with characters outside the Basic Multilingual Plane are not modelled. The name pattern itself only accepts characters up to U+00FF.
- A JavaScript lookup `table[name]` also finds inherited keys such as `constructor`. The tables here answer only for the listed names.
- `occurrence` is an integer. `NaN` and fractional values are not modelled.
- zod's `.email()` check is the parameter `isEmail`. bcrypt is the uninterpreted `hash`. Sessions, the database's generated ids and the uuid generator are parameters.
- AuthAction.Register: a fault thrown by `hash` itself is not modelled; faults come only from the lookup and the insert.
- The per-song `[id]` route, the page components, animations, analytics and middleware.
- DashboardHeader.PreviousDisabled and DashboardHeader.NextDisabled compare songs by value. The code compares object identity, and that identity is not modelled.
- The `order` field a client sends in a reorder body: the route ignores it, and so does the model.
