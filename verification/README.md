# Lists and plain-text task import of a desktop to-do application

This project is a Dafny model of two parts of a Tauri/TypeScript to-do app, with proofs about them.

**The list store** (`src/services/listStore.ts`) owns the user's lists (`TodoList` records), the id of the selected list, and the registered change listeners. The model is an immutable `Store` value. Each store call becomes a pure transition function:

- `Init`: first-run seeding of the four default lists.
- `GetLists`: stable read sorted by `sortOrder`.
- `GetListById`: lookup by id.
- `SetSelectedListId`: guarded selection.
- `AddList`, `UpdateList`, `DeleteList`, `ReorderLists`: the mutators.
- `Subscribe`, `Unsubscribe`: listener registration.

Two fields of `Store` stand for effects that the program does not keep in memory:

- `persisted` is the content of the `lists.json` document.
- `notifications` counts change notifications, and `calls` logs every listener invocation in order.

So "saves and notifies" and "stays silent" are facts about the returned value. Module layout:

- `lists.dfy` (`Lists`): the record, the shallow-merge update, and the seeded lists.
- `list_store.dfy` (`ListStore`): the store and its operations.
- `list_store_props.dfy` (`ListStoreProps`): properties that span several calls. One is the well-formedness invariant: ids are unique, the `"default"` list exists, and the selection names a list. Another is that the document tracks memory across any run of calls.
- `seqs.dfy` (`Seqs`): the order-preserving `filter`, with a uniqueness characterisation.
- `sorting.dfy` (`Sorting`): the stable sort by an integer key.

`SelectedListId` models `getSelectedListId` and is a plain accessor.

**The text importer** (`src/services/aiParser.ts`, `AIParser.parseTasks`) works in these steps:

1. Split the text on `'\n'`.
2. Trim each line and skip blank lines.
3. Try six regular expressions in priority order: checklist, `todo:`-style prefix, markdown header, bold bullet item, plain bullet, numbered item. The first match yields the line's task.

Each regular expression becomes a hand-written recogniser over a trimmed line. `IsWs` is ECMAScript white space plus line terminators, which is both what `trim` removes and what `\s` matches. The regex `.` refuses the four line terminators. The prefix rule's `i` flag means ASCII case-insensitivity for `todo`, `to-do` and `task`. Lazy `(.+?)` finds the first closing `**` that leaves a non-empty capture. Each pattern's shape is also written as a predicate over the pieces of a line (`ChecklistForm`, `PrefixForm`, `HeaderForm`, `BoldForm`, `BulletForm`, `NumberedForm`, gathered in `Captures`), so that a recogniser can be related to its shape in both directions. Module layout:

- `text.dfy` (`Text`): `trim` and `split('\n')`.
- `ai_parser.dfy` (`AiParser`): the recognisers and `ParseTasks`.
- `ai_parser_props.dfy` (`AiParserProps`): what each line shape yields, rule priority, line independence, and blank text.

Behaviour of the store worth knowing, as the code has it:

- `init` falls back to the seeded lists on any read or parse failure, not only on a missing document.
- `init` notifies only after seeding. A successful read installs the document silently, and writes nothing.
- `deleteList` removes every list with the id, and saves and notifies even when the id is absent.
- `reorderLists` drops every list not named in its argument. The model keeps this behaviour. `ReorderPermutationKeepsWf` shows that reordering by a permutation of the stored ids loses no list.

## Model

| member | source | states |
|---|---|---|
| Seqs.Filter | src/services/listStore.ts:124 | `filter` keeps exactly the elements satisfying the predicate, one per satisfying position, as a subsequence in the original order |
| Seqs.FilterCharacterization | src/services/listStore.ts:124 | any subsequence that holds only satisfying elements and has one per satisfying position is the filter result, so the three facts pin down what `deleteList` and unsubscribe leave |
| Seqs.FilterAppend | src/services/listStore.ts:74 | filtering a concatenation filters each part and concatenates |
| Seqs.FilterAll | src/services/listStore.ts:74 | filtering with a predicate every element satisfies changes nothing |
| Seqs.SubseqMembers | src/services/listStore.ts:124 | every element of a subsequence belongs to the sequence |
| Seqs.SubseqCountBound | src/services/listStore.ts:124 | a subsequence of satisfying elements is no longer than the number of satisfying positions |
| Sorting.Sort | src/services/listStore.ts:79 | the sort's output is ordered by key, is a permutation of the input, and is stable: each key's elements keep their input order |
| Sorting.Insert | src/services/listStore.ts:79 | one insertion step adds exactly one element to the multiset, and the head of the result is either that element or the old head |
| Sorting.InsertSorted | src/services/listStore.ts:79 | inserting into a sorted sequence keeps it sorted |
| Sorting.InsertKeepsClasses | src/services/listStore.ts:79 | inserting into a sorted sequence keeps each key class in input order (stability step) |
| Sorting.SortOfSorted | src/services/listStore.ts:79 | sorting a sequence that is already sorted returns it unchanged |
| Lists.Merge | src/services/listStore.ts:115 | shallow merge `{...l, ...updates}`: fields present in the update replace the list's, all others and `id`, `createdAt` are kept |
| Lists.MergeIdempotent | src/services/listStore.ts:115 | applying the same update twice equals applying it once |
| Lists.MergeEmpty | src/services/listStore.ts:115 | an empty update changes nothing |
| Lists.DefaultLists | src/services/listStore.ts:7-44 | four seeded lists with ids default, personal, work, shopping, sort orders 0..3, not shared, each with an icon |
| ListStore.Notify | src/services/listStore.ts:67-69 | a notification calls every registered listener exactly once, in registration order, and changes no data |
| ListStore.Save | src/services/listStore.ts:62-65 | saving makes the document equal to the in-memory lists, then notifies once |
| ListStore.IndexOf | src/services/listStore.ts:113 | `findIndex` returns the first position with the id, or nothing exactly when no list has it |
| ListStore.GetListById | src/services/listStore.ts:82-84 | the result is present exactly when some list has the id, and is then the first such list |
| ListStore.GetLists | src/services/listStore.ts:78-80 | `getLists` is a permutation of the stored lists ordered by `sortOrder`, stable on ties; the store is not changed |
| ListStore.Subscribe | src/services/listStore.ts:71-72 | registration appends the listener and neither saves nor notifies |
| ListStore.Unsubscribe | src/services/listStore.ts:73-75 | the unsubscribe removes every registration of that listener and keeps the others in order, silently |
| ListStore.New | src/services/listStore.ts:47-49 | a new store holds no lists and no listeners, selects `"default"`, and has notified no one; the document is whatever is on disk |
| ListStore.SelectedListId | src/services/listStore.ts:86-88 | the selected id; in a store whose selection names a list, looking it up finds that list |
| ListStore.Init | src/services/listStore.ts:51-60 | a successful read installs the document already on disk, writes nothing and notifies no one; a failed read installs the four seeded lists (ids, sort orders 0..3), saves and notifies once |
| ListStore.SetSelectedListId | src/services/listStore.ts:90-95 | selection changes and one notification happen only if some list has the id, never a save; otherwise the store is unchanged |
| ListStore.AddList | src/services/listStore.ts:97-110 | exactly one list is appended (fresh id and time, given attributes, `sortOrder` = old length, not shared) and returned; earlier lists unchanged; saved and notified |
| ListStore.UpdateList | src/services/listStore.ts:112-118 | an unknown id changes nothing and is silent; otherwise only the first matching entry is merged, length kept, saved and notified |
| ListStore.DeleteList | src/services/listStore.ts:120-129 | `"default"` is a complete no-op; any other id removes exactly the lists with it, keeps the rest in order, moves a selection of it to `"default"`, saves and notifies even if absent |
| ListStore.Reordered | src/services/listStore.ts:132-138 | one entry per id that names a list, in input order, each the first such list with `sortOrder` = its index in the input; unknown ids skipped, unnamed lists dropped |
| ListStore.ReorderedStep | src/services/listStore.ts:132-138 | extending the input by one id extends the reordered collection by at most that id's list, keeping its properties |
| ListStore.ReorderLists | src/services/listStore.ts:131-142 | the collection becomes the reordered one, selection kept, saved and notified |
| ListStoreProps.SubseqUniqueIds | src/services/listStore.ts:124 | removing lists cannot create duplicate ids |
| ListStoreProps.DeleteListKeepsWf | src/services/listStore.ts:120-129 | deleting keeps the default list and a valid selection, and leaves no list with the deleted id |
| ListStoreProps.SetSelectedKeepsWf | src/services/listStore.ts:90-95 | guarded selection keeps the selection valid |
| ListStoreProps.AddListKeepsWf | src/services/listStore.ts:97-110 | adding under an unused id keeps ids unique and the store well formed |
| ListStoreProps.UpdateListKeepsWf | src/services/listStore.ts:112-118 | an update never changes an id, so the store stays well formed |
| ListStoreProps.ReorderedAllKnown | src/services/listStore.ts:132-138 | when every id names a list, the result has one entry per id with that id and sort order equal to its index |
| ListStoreProps.ReorderByKnownIds | src/services/listStore.ts:131-142 | after reordering by known ids, `getLists` returns the lists exactly in the given order with sort orders 0..n-1 |
| ListStoreProps.ReorderPermutationKeepsWf | src/services/listStore.ts:131-142 | reordering by a permutation of the stored ids keeps the store well formed with dense sort orders, and every stored list is still present |
| ListStoreProps.InitSeedsDefaults | src/services/listStore.ts:51-60 | first run without a readable document: `getLists` returns default, personal, work, shopping with sort orders 0..3, persisted, one notification |
| ListStoreProps.StartUp | src/services/listStore.ts:46-60 | a new store after `init`: the document and memory agree and `"default"` is selected; a successful read holds the document with no notification, a failed read holds the seeded lists, well formed, with one notification |
| ListStoreProps.DefaultListsWf | src/services/listStore.ts:7-44 | the seeded lists have unique ids and include the default list |
| ListStoreProps.UnsubscribeAfterSubscribe | src/services/listStore.ts:71-76 | unsubscribing right after subscribing equals unsubscribing alone |
| ListStoreProps.SubscribeUnsubscribeRoundTrip | src/services/listStore.ts:71-76 | subscribing a new listener and calling its unsubscribe restores the store exactly |
| ListStoreProps.Step | src/services/listStore.ts:90-142 | every store call either is silent or notifies exactly once, and keeps the document in step with memory |
| ListStoreProps.RunKeepsSynced | src/services/listStore.ts:62-65 | over any sequence of calls the document stays equal to the in-memory lists |
| ListStoreProps.DocumentTracksMemory | src/services/listStore.ts:51-65 | after `init`, whatever calls follow, the document holds exactly the in-memory lists |
| ListStoreProps.StepKeepsWf | src/services/listStore.ts:90-142 | every admissible call keeps the store well formed |
| ListStoreProps.RunKeepsWf | src/services/listStore.ts:120-122 | along any admissible run the default list is never lost and the selection always names a list |
| ListStoreProps.SelectionResolves | src/services/listStore.ts:82-95 | after any admissible run from a well-formed store, `getListById(getSelectedListId())` finds a list |
| Text.SkipWs | src/services/aiParser.ts:19 | greedy `\s*`: the end of the white-space run starting at a position |
| Text.Trim | src/services/aiParser.ts:15 | `trim` removes exactly the surrounding white space: the result is trimmed, empty iff the line is blank, and a trimmed input is returned as is |
| Text.SplitLines | src/services/aiParser.ts:11 | `split('\n')` gives one piece more than there are line feeds, pieces free of line feeds, which re-join to the text |
| Text.SplitAppend | src/services/aiParser.ts:11 | splitting `a + "\n" + b` gives the pieces of `a` followed by those of `b` |
| Text.SplitJoin | src/services/aiParser.ts:11 | splitting re-joined pieces returns the pieces (inverse of joining) |
| Text.SplitAllWs | src/services/aiParser.ts:11-16 | every piece of blank text is blank |
| AiParser.SpaceThenRest | src/services/aiParser.ts:54 | greedy `\s+(.+)$`: a match takes at least one white-space character, all of it white space, then captures the rest of the line, non-empty, trimmed and free of line terminators |
| AiParser.MatchChecklist | src/services/aiParser.ts:19 | the checklist regex captures a trimmed proper suffix of a line starting with `-` |
| AiParser.ChecklistShape | src/services/aiParser.ts:19 | a checklist match is `-`, optional white space, one of `[]`, `[ ]`, `[x]`, `[X]`, white space, then the capture |
| AiParser.MatchWordsFrom | src/services/aiParser.ts:27 | trying the words of the alternation in order captures a trimmed proper suffix of the line |
| AiParser.WordsFromShape | src/services/aiParser.ts:27 | a match is a line spelling one of the words in any ASCII case, then a colon, optional white space and the capture |
| AiParser.MatchPrefix | src/services/aiParser.ts:27 | the prefix regex captures a trimmed proper suffix of the line |
| AiParser.PrefixShape | src/services/aiParser.ts:27 | a prefix match is one of `todo`, `to-do`, `task` in any ASCII case or one of the four Korean words, a colon, optional white space, then the capture |
| AiParser.MatchHeader | src/services/aiParser.ts:35 | the header regex matches only after 1 to 6 `#` followed by white space |
| AiParser.HeaderShape | src/services/aiParser.ts:35 | a header match is 1 to 6 `#`, white space, then the capture |
| AiParser.FindDoubleStar | src/services/aiParser.ts:43 | the first `**` at or after a position |
| AiParser.MatchBold | src/services/aiParser.ts:43 | the bold regex captures non-empty text with no line terminator, on a line starting with `-` or `*` |
| AiParser.BoldShape | src/services/aiParser.ts:43 | a bold match is `-` or `*`, white space, `**`, the shortest non-empty text that `**` follows, `**`, then a rest, with no line terminator after the opening `**` |
| AiParser.MatchBullet | src/services/aiParser.ts:54 | the bullet regex captures a trimmed proper suffix of a line starting with `-` or `*` |
| AiParser.BulletShape | src/services/aiParser.ts:54 | a bullet match is `-` or `*`, white space, then the capture |
| AiParser.MatchNumbered | src/services/aiParser.ts:62 | the numbered regex captures a trimmed proper suffix of a line starting with a digit |
| AiParser.NumberedShape | src/services/aiParser.ts:62 | a numbered match is ASCII digits, `.`, white space, then the capture |
| AiParser.FirstMatch | src/services/aiParser.ts:18-66 | the reported pattern's regex matches with the reported capture, every pattern tried before it fails, and nothing is reported only when all six fail |
| AiParser.Classify | src/services/aiParser.ts:18-66 | a line yields nothing exactly when none of the six regexes matches it; a task is trimmed and without line terminators, and non-empty and shorter than the line for every rule but the bold one |
| AiParser.RecogniseCaptures | src/services/aiParser.ts:18-66 | whatever a pattern's regex captures comes from a line of that pattern's shape |
| AiParser.ClassifyCaptures | src/services/aiParser.ts:18-66 | a task is the trimmed capture of its pattern on a line of that pattern's shape, and for all rules but the bold one the capture itself |
| AiParser.ParseLine | src/services/aiParser.ts:15-16 | a blank line yields nothing; any task is trimmed |
| AiParser.ParseLines | src/services/aiParser.ts:14-67 | at most one task per line, each trimmed and without line terminators |
| AiParser.ParseTasks | src/services/aiParser.ts:10-70 | at most one task per `'\n'`-separated line, each trimmed and without line terminators |
| AiParserProps.ChecklistLine | src/services/aiParser.ts:19-23 | every line of the checklist shape yields its capture under the checklist rule |
| AiParserProps.ChecklistExactly | src/services/aiParser.ts:19-23 | a trimmed line yields `t` under the checklist rule if and only if it has the checklist shape with capture `t` |
| AiParserProps.ChecklistBeforeBullet | src/services/aiParser.ts:19-58 | `- [ ] X` yields `X`, though the bullet rule alone would capture `[ ] X` |
| AiParserProps.PrefixLine | src/services/aiParser.ts:27-31 | every line of the prefix shape yields its capture under the prefix rule |
| AiParserProps.PrefixExactly | src/services/aiParser.ts:27-31 | a trimmed line yields `t` under the prefix rule if and only if it has the prefix shape with capture `t` |
| AiParserProps.PrefixExample | src/services/aiParser.ts:27-31 | `To-Do: write report` yields `write report` |
| AiParserProps.HeaderLine | src/services/aiParser.ts:35-39 | every line of the header shape yields its capture under the header rule |
| AiParserProps.HeaderExactly | src/services/aiParser.ts:35-39 | a trimmed line yields `t` under the header rule if and only if it has the header shape with capture `t` |
| AiParserProps.HashLine | src/services/aiParser.ts:35-39 | a line starting with `#` yields a task only as a header, so only after 1 to 6 `#` followed by white space |
| AiParserProps.HeaderNeedsSpace | src/services/aiParser.ts:35-39 | `#Title` yields nothing |
| AiParserProps.BoldLine | src/services/aiParser.ts:43-50 | every trimmed line of the bold shape yields its trimmed bold text, ahead of the bullet rule |
| AiParserProps.BoldExactly | src/services/aiParser.ts:43-50 | a trimmed line yields `task` under the bold rule if and only if it has the bold shape with a capture that trims to `task` |
| AiParserProps.BoldIsLazy | src/services/aiParser.ts:43-50 | the capture stops at the first closing `**`: `- **a***` yields `a` |
| AiParserProps.BoldMayBeEmpty | src/services/aiParser.ts:43-50 | the bold rule can yield an empty task: `- ** ** x` yields "" |
| AiParserProps.BulletLine | src/services/aiParser.ts:54-58 | every line of the bullet shape that the checklist and bold regexes reject yields its capture under the bullet rule |
| AiParserProps.BulletExactly | src/services/aiParser.ts:19-58 | a trimmed line yields `t` under the bullet rule if and only if it has the bullet shape with capture `t` and the checklist and bold regexes do not match it |
| AiParserProps.PlainBulletLine | src/services/aiParser.ts:54-58 | `- X` or `* X`, where `X` starts with no checkbox opening after `-` and no `**`, yields `X` |
| AiParserProps.BulletFallThrough | src/services/aiParser.ts:19-58 | lines the earlier rules reject fall to the bullet rule: `- [a] x`, `- [ ]x` and `- **x` yield `[a] x`, `[ ]x` and `**x` |
| AiParserProps.NumberedLine | src/services/aiParser.ts:62-66 | every line of the numbered shape yields its capture under the numbered rule |
| AiParserProps.NumberedExactly | src/services/aiParser.ts:62-66 | a trimmed line yields `t` under the numbered rule if and only if it has the numbered shape with capture `t` |
| AiParserProps.NotTasks | src/services/aiParser.ts:14-67 | lines matching none of the six patterns contribute nothing: `-x`, `1.x` and `hello` yield no task |
| AiParserProps.ParseLinesAppend | src/services/aiParser.ts:14-67 | lines contribute independently and in order: the tasks of `a + b` are those of `a` then those of `b` |
| AiParserProps.ParseTasksConcat | src/services/aiParser.ts:11-69 | the tasks of `a + "\n" + b` are the tasks of `a` followed by those of `b` |
| AiParserProps.ParseJoinedLines | src/services/aiParser.ts:11-16 | parsing lines joined by line feeds parses each line in order |
| AiParserProps.BlankLinesYieldNothing | src/services/aiParser.ts:15-16 | blank lines contribute nothing |
| AiParserProps.BlankTextYieldsNothing | src/services/aiParser.ts:11-16 | text made only of white space yields no task |

## Left out

- `readFile` and `writeFile` (imported by the list store from `src/services/fs.ts`) are not part of this model. `src/services/fs.ts` in this source tree exports neither. The outcome of the read in `init` is a parameter (`ReadOutcome`).
- Writes are assumed to succeed. In the source, a failing write throws out of `save` after memory has changed, so no listener is called. That path is not modelled.
- JSON serialisation, `crypto.randomUUID()` and `new Date().toISOString()` are not modelled. Ids and timestamps are opaque strings passed in, and the four seeded timestamps are one parameter. Freshness of a new id is assumed only where it matters, in `ListStoreProps.AddListKeepsWf`.
- `async`/`await` sequencing is not modelled. The store is single-threaded, so each call is one atomic transition.
- What the listener callbacks do is not modelled, because it is code outside the store. Listeners are opaque handles, and equal handles stand for the same function (`!==` in the source).
- `sortOrder` is an integer in the model. Fractional or `NaN` sort orders, which a JavaScript `number` allows, are not modelled.
- The to-do item store, the UI wiring in `src/ui/events.ts`, the AI service in `src/services/aiService.ts` and the start-up in `src/main.ts` are not part of this model.
- `IsWs` follows the current Unicode space-separator set. The engine's Unicode tables are not consulted.
- The entries that `getListById`, `getLists` and `addList` return are the stored objects themselves. A caller that mutates one changes the store, with no save and no notification. The model returns values, so this aliasing is not modelled.
- A `Partial<TodoList>` update may hold an explicit `undefined` in a field, and the spread then copies it over the list's value. The model represents that only for `icon`, where `undefined` is a legal value. For `name`, `color` and the other fields, an `undefined` entry is treated as absent.
