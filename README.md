# JBehave execution context, modelled in Dafny

This project models `JBehaveContext`, the bookkeeping class of the
ReportPortal JBehave agent. While a JBehave run is in progress, each running
story has a `Story` context object. That object holds the handles
(`Maybe<String>` promises of ReportPortal item ids) of:

- the story,
- the scenario,
- the step currently open.

Every change to one of these slots is mirrored into one of two caches. The
caches are static maps from story context to a deque of handles:

- `itemsCache` holds story and scenario handles;
- `stepsCache` holds step handles.

`getItemsCache()` concatenates every step deque and then every item deque.
This lets a reporter see every item whose id is still pending. The model also
covers the context's plain fields (status, examples, meta, parent) and the
`Examples` cursor over an examples table.

Files:

- `wrappers.dfy`: `Option`, which stands in for Java `null` in a slot.
- `pending_cache.dfy` (module `PendingCache`): value-level functions and
  lemmas about one cache. It covers:
  - `remove(o)` on a deque (`RemoveFirst`);
  - what a setter does to its deque (`Mirror`);
  - `mergeMapValues`, over any iteration order of the map's keys;
  - a cache's contents as a multiset (`Pending`). This is independent of
    iteration order, because every enumeration of the keys flattens to the
    same multiset.
- `jbehave_context.dfy` (module `JBehave`): the classes.
  - `Story` and `Examples` are Dafny classes whose methods update their
    fields.
  - The static state is one `JBehaveContext` object: the two caches as
    `map` fields, plus the current-story binding. Every `Story` method that
    touches a cache is handed that object.
  - Handles are a type parameter `H` compared with `==`. A Java `Maybe`
    compares by identity, and `H` can stand for object identity.
- `story_scenarios.dfy` (module `StoryScenarios`): the driving sequences of
  the repository's `JBehaveContextStoryTest`, with handles instantiated as
  strings. Each is proved from the contracts of the setters and of
  `getItemsCache`. They also run on a context in which earlier stories left
  only empty deques.

Two details of the code worth noting, both followed by the model:

- Clearing a slot of a story that has no deque yet still inserts an empty
  deque. `getEntryFrom` runs before the null test
  (`JBehaveContext.java:116`, `:126`, `:150`), and `GetEntryFrom` /
  `EntryOf` model that.
- After a clear, the story-id and scenario slots hold the argument, so
  `null` (`JBehaveContext.java:132`, `:156`). They do not show the deque's
  front. Only the step slot re-reads the front with `peek()`
  (`JBehaveContext.java:122`).

## Model

| member | source | states |
|---|---|---|
| PendingCache.EntryOf | src/main/java/com/epam/reportportal/jbehave/JBehaveContext.java:74-81 | defines the deque `getEntryFrom` hands back: the story's deque when the cache has one, otherwise the new empty one it inserts |
| PendingCache.Mirror | src/main/java/com/epam/reportportal/jbehave/JBehaveContext.java:117-121 | defines a setter's change to its deque: a non-null argument is pushed onto the front; a null one removes the first copy of the slot's previous handle, and changes nothing when that slot was null (the same branch appears at lines 127-131 and 151-155) |
| PendingCache.Flatten | src/main/java/com/epam/reportportal/jbehave/JBehaveContext.java:66-72 | defines the loop's result for one visiting order: the deques of the keys in that order, each front to back, appended one after another |
| PendingCache.Peek | src/main/java/com/epam/reportportal/jbehave/JBehaveContext.java:122 | `peek()` is empty exactly on an empty deque, and otherwise gives the front element |
| PendingCache.RemoveFirst | src/main/java/com/epam/reportportal/jbehave/JBehaveContext.java:120 | `remove(o)` leaves a deque without `o` unchanged, and otherwise shortens it by one; the contents lose exactly one copy of `o` |
| PendingCache.RemoveFirstAt | src/main/java/com/epam/reportportal/jbehave/JBehaveContext.java:120 | the copy removed is the first one: everything before it and everything after it stays, in order |
| PendingCache.MirrorClearUndoesPush | src/main/java/com/epam/reportportal/jbehave/JBehaveContext.java:115-123 | setting a handle and then clearing with that handle in the slot restores the deque exactly |
| PendingCache.MirrorClearOfAbsent | src/main/java/com/epam/reportportal/jbehave/JBehaveContext.java:119-121 | clearing when the slot is empty, or holds a handle not in the deque, leaves the deque unchanged (`remove(null)` on a deque that never holds `null`) |
| PendingCache.MirrorContents | src/main/java/com/epam/reportportal/jbehave/JBehaveContext.java:115-157 | one setter call changes the deque's contents by exactly the handle pushed, or the one previous handle it removes |
| PendingCache.NestedStepsUnwind | src/main/java/com/epam/reportportal/jbehave/JBehaveContext.java:115-123 | after any number of nested steps are pushed, the same number of step clears restores the deque and the slot's front |
| PendingCache.ClearStepsDrops | src/main/java/com/epam/reportportal/jbehave/JBehaveContext.java:119-122 | each step clear with the slot in step drops the front, so `n` clears drop the first `n` steps |
| PendingCache.Enumerate | src/main/java/com/epam/reportportal/jbehave/JBehaveContext.java:68 | every finite key set has an iteration order listing each key exactly once |
| PendingCache.RemoveAtEnumerates | src/main/java/com/epam/reportportal/jbehave/JBehaveContext.java:68 | dropping one key from an iteration order leaves an iteration order of the other keys |
| PendingCache.FlattenAgrees | src/main/java/com/epam/reportportal/jbehave/JBehaveContext.java:66-72 | merging depends only on the deques of the keys visited |
| PendingCache.FlattenRemoveAt | src/main/java/com/epam/reportportal/jbehave/JBehaveContext.java:66-72 | leaving one key out of the merge removes exactly that key's deque from the merged contents |
| PendingCache.EnumerationsAgree | src/main/java/com/epam/reportportal/jbehave/JBehaveContext.java:66-72 | any two iteration orders of the same keys merge to the same multiset |
| PendingCache.PendingOfAnyOrder | src/main/java/com/epam/reportportal/jbehave/JBehaveContext.java:66-72 | whatever order `values()` uses, the merged deque holds exactly the cache's contents (multiset and size) |
| PendingCache.PendingUpdate | src/main/java/com/epam/reportportal/jbehave/JBehaveContext.java:74-81 | replacing or inserting one story's deque changes the cache's contents by exactly the old deque out and the new deque in |
| PendingCache.PendingReplace | src/main/java/com/epam/reportportal/jbehave/JBehaveContext.java:74-81 | the replace case of `PendingUpdate`, for a story already in the cache |
| PendingCache.PendingInsert | src/main/java/com/epam/reportportal/jbehave/JBehaveContext.java:76-79 | inserting a deque for a story not yet in the cache adds exactly that deque's contents |
| PendingCache.MirrorPending | src/main/java/com/epam/reportportal/jbehave/JBehaveContext.java:115-157 | a setter call changes the whole cache's contents by exactly the handle it adds and the one it removes; all other stories' handles are kept |
| PendingCache.PendingOfEntryKept | src/main/java/com/epam/reportportal/jbehave/JBehaveContext.java:74-81 | `getEntryFrom` inserting an empty deque does not change the cache's contents |
| PendingCache.FlattenNilIff | src/main/java/com/epam/reportportal/jbehave/JBehaveContext.java:66-72 | a merge is empty if and only if every visited deque is empty |
| PendingCache.PendingEmptyIff | src/main/java/com/epam/reportportal/jbehave/JBehaveContext.java:59-72 | a cache has no pending handles if and only if every story's deque is empty |
| PendingCache.FlattenSingleSourceIn | src/main/java/com/epam/reportportal/jbehave/JBehaveContext.java:66-72 | when only one story's deque is non-empty, any duplicate-free merge is that deque, or empty if that story is not visited |
| PendingCache.FlattenSingleSource | src/main/java/com/epam/reportportal/jbehave/JBehaveContext.java:66-72 | when only one story holds handles, the merged cache is that story's deque in its own order, whatever the iteration order |
| PendingCache.VisitNext | src/main/java/com/epam/reportportal/jbehave/JBehaveContext.java:68-70 | visiting one more not-yet-visited key keeps every key visited at most once and every key either visited or still to come |
| PendingCache.MergeMapValues | src/main/java/com/epam/reportportal/jbehave/JBehaveContext.java:66-72 | `mergeMapValues` appends every deque in some iteration order over all keys; the result holds exactly the cache's contents and has their size |
| JBehave.ExamplesTable.GetRow | src/main/java/com/epam/reportportal/jbehave/JBehaveContext.java:222 | a row is returned if and only if the index is inside the table, and it is the row at that index |
| JBehave.Examples.constructor | src/main/java/com/epam/reportportal/jbehave/JBehaveContext.java:211-215 | a new cursor keeps the steps and the table, starts at -1, and so has no current parameters |
| JBehave.Examples.GetCurrentExampleParams | src/main/java/com/epam/reportportal/jbehave/JBehaveContext.java:221-223 | there are parameters if and only if the cursor is inside the table, and they are the row under the cursor |
| JBehave.Examples.HasStep | src/main/java/com/epam/reportportal/jbehave/JBehaveContext.java:233-235 | true if and only if the step occurs in the step list |
| JBehave.Examples.SetCurrentExample | src/main/java/com/epam/reportportal/jbehave/JBehaveContext.java:237-239 | moves the cursor; a cursor inside the table then yields that row as parameters |
| JBehave.Story.constructor | src/main/java/com/epam/reportportal/jbehave/JBehaveContext.java:83-98 | every field of a new context is null |
| JBehave.Story.HasParent | src/main/java/com/epam/reportportal/jbehave/JBehaveContext.java:100-102 | true if and only if a parent is set |
| JBehave.Story.SetParent | src/main/java/com/epam/reportportal/jbehave/JBehaveContext.java:108-110 | stores the parent, so `hasParent` then holds if and only if it is non-null |
| JBehave.Story.SetCurrentStep | src/main/java/com/epam/reportportal/jbehave/JBehaveContext.java:115-123 | the story's step deque (created if missing) gets the argument pushed, or the slot's previous step removed; the other cache is untouched; the slot then shows the deque's front, and equals a non-null argument |
| JBehave.Story.SetCurrentStoryId | src/main/java/com/epam/reportportal/jbehave/JBehaveContext.java:125-133 | the story's item deque (created if missing) gets the argument pushed, or the slot's previous id removed; the step cache is untouched; the slot then holds the argument itself |
| JBehave.Story.SetCurrentScenario | src/main/java/com/epam/reportportal/jbehave/JBehaveContext.java:149-157 | as `SetCurrentStoryId`, on the scenario slot |
| JBehave.Story.SetCurrentStepStatus | src/main/java/com/epam/reportportal/jbehave/JBehaveContext.java:170-172 | stores the status |
| JBehave.Story.SetExamples | src/main/java/com/epam/reportportal/jbehave/JBehaveContext.java:174-176 | stores the examples |
| JBehave.Story.HasExamples | src/main/java/com/epam/reportportal/jbehave/JBehaveContext.java:178-180 | true if and only if examples are set and their table has at least one row |
| JBehave.Story.SetScenarioMeta | src/main/java/com/epam/reportportal/jbehave/JBehaveContext.java:186-188 | stores the scenario meta |
| JBehave.Story.SetStoryMeta | src/main/java/com/epam/reportportal/jbehave/JBehaveContext.java:194-196 | stores the story meta |
| JBehave.JBehaveContext.constructor | src/main/java/com/epam/reportportal/jbehave/JBehaveContext.java:41-49 | both caches start empty and no story is bound yet |
| JBehave.JBehaveContext.GetCurrentStory | src/main/java/com/epam/reportportal/jbehave/JBehaveContext.java:41-53 | returns the bound story; the first call binds and returns a fresh, blank story |
| JBehave.JBehaveContext.SetCurrentStory | src/main/java/com/epam/reportportal/jbehave/JBehaveContext.java:55-57 | binds the given story, null included, as current |
| JBehave.JBehaveContext.GetEntryFrom | src/main/java/com/epam/reportportal/jbehave/JBehaveContext.java:74-81 | returns the story's deque, or a new empty deque that is inserted first; afterwards the story is in that cache, and nothing else in either cache changes |
| JBehave.JBehaveContext.GetItemsCache | src/main/java/com/epam/reportportal/jbehave/JBehaveContext.java:59-64 | all step deques then all item deques, in some iteration order of each cache; holds exactly the two caches' contents and their total size |
| StoryScenarios.StoryHasNoExamplesWhenExamplesTableIsEmpty | src/test/java/com/epam/reportportal/jbehave/JBehaveContextStoryTest.java:46-50 | a story given examples over the empty table has no examples |
| StoryScenarios.StoryHasExamplesWhenExamplesTableHasRows | src/main/java/com/epam/reportportal/jbehave/JBehaveContext.java:178-180 | a story given examples over a table with a row has examples |
| StoryScenarios.OpenStory | src/test/java/com/epam/reportportal/jbehave/JBehaveContextStoryTest.java:58-61 | setting story id, scenario and two nested steps on a new story leaves its step deque as composed step then composite step, and its item deque as scenario then story id |
| StoryScenarios.ItemsCache | src/test/java/com/epam/reportportal/jbehave/JBehaveContextStoryTest.java:52-69 | with nothing else pending, the merged cache is exactly composed step, composite step, scenario, story id; it returns the story, its two deques and its three slots as the test leaves them, and changes only the two caches |
| StoryScenarios.ItemsCacheThenTearDown | src/test/java/com/epam/reportportal/jbehave/JBehaveContextStoryTest.java:38-69 | the items-cache test followed by the tear-down: the merged cache is the four handles, and afterwards every slot is clear, the story keeps only empty deques and nothing is pending again |
| StoryScenarios.CloseSteps | src/test/java/com/epam/reportportal/jbehave/JBehaveContextStoryTest.java:77-78 | two step clears empty the step deque and the step slot |
| StoryScenarios.CloseItems | src/test/java/com/epam/reportportal/jbehave/JBehaveContextStoryTest.java:79-80 | clearing the scenario and then the story id empties the item deque and both slots |
| StoryScenarios.FullStoryExecution | src/test/java/com/epam/reportportal/jbehave/JBehaveContextStoryTest.java:71-82 | opening and closing the four items leaves the merged cache empty and nothing pending; the only trace is an empty deque for the story in each cache |
| StoryScenarios.TearDownSteps | src/test/java/com/epam/reportportal/jbehave/JBehaveContextStoryTest.java:40-41 | two step clears; with the slot in step they drop exactly the two innermost steps |
| StoryScenarios.TearDownItems | src/test/java/com/epam/reportportal/jbehave/JBehaveContextStoryTest.java:42-43 | clearing the scenario and then the story id removes each slot's handle and empties both slots |
| StoryScenarios.TearDown | src/test/java/com/epam/reportportal/jbehave/JBehaveContextStoryTest.java:38-44 | the two step clears and the two item clears give the new step and item deques exactly; with the slot in step they drop the two innermost steps; the scenario and story-id slots end clear and the step slot in step with its deque (clear only once the deque is empty); on an already-closed story no deque's contents change |

## Left out

- The per-thread `ThreadLocal` registry is one binding (`bound`, `currentStory`). A run on several threads, each with its own current story, is not modelled.
- Concurrency: `ConcurrentHashMap` thread safety, and interleaved setter calls from several threads on shared caches, are not modelled. Each call is atomic in the model.
- `Maybe` resolution (`blockingGet`) is not modelled. Handles are opaque values of a type `H`, and the scenarios compare handles directly, not their resolved ids.
- The internals of `ExamplesTable` and `Meta` are not modelled. A table is its list of rows, and `Meta` is an empty class passed through unread.
- JBehave.ExamplesTable.GetRow: an index outside the table gives `None`. The library's `getRow` failure (an exception) is not modelled as such.
- Getters (`getParent`, `getCurrentStep`, `getCurrentStoryId`, `getCurrentScenario`, `getCurrentStepStatus`, `getExamples`, `getScenarioMeta`, `getStoryMeta`, `getExamplesTable`, `getCurrentExample`, `getSteps`) are not separate members. Callers read the Dafny fields directly.
- The concrete iteration order of `map.values()` is not fixed. `MergeMapValues` picks any order and reports it as a ghost sequence. Results are stated for every possible order.
- Aliasing of the deque objects: `getEntryFrom` returns the live deque held in the map, which a setter then changes in place. The model returns the deque as a value and the setter writes the changed value back, so the net cache state after each call is the same. Other holders of a deque reference are not modelled.
- `getItemsCache` and `mergeMapValues` return fresh `LinkedList` objects. The model returns sequences.
- JBehave.Story.SetCurrentStep, JBehave.Story.SetCurrentStoryId, JBehave.Story.SetCurrentScenario: their contracts state the new deque through `Mirror`. The effect on the whole cache's contents is stated separately in `PendingCache.MirrorPending`, not in each setter's own contract.
- StoryScenarios.ItemsCache, StoryScenarios.ItemsCacheThenTearDown, StoryScenarios.FullStoryExecution: they require that no other story has pending handles. Leftover handles from other stories would appear in the merged view in an unspecified order. Each run followed by the tear-down leaves nothing pending again, as `ItemsCacheThenTearDown` and `FullStoryExecution` ensure.
