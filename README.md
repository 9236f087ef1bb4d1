# Task manager core, in Dafny

This project models the logic inside the `my-task-manager` React app. The app
is a browser to-do list with a second panel that loads users and posts from a
public REST API and lets you search and page through them. Rendering is not
modelled. Three pieces of logic are:

- **The task reducer** (`taskReducer`): a closed state machine over an ordered
  list of tasks `{id, text, completed, createdAt}`. It has four actions:
  ADD_TASK, TOGGLE_TASK, DELETE_TASK and LOAD_TASKS. `TaskContext.Reduce` is
  a function from the old state and an action to the new state.
  - The clock readings that ADD_TASK takes are part of the model's action:
    the id from `Date.now().toString()` and the `createdAt` from `new Date()`.
  - Ids are not assumed unique. TOGGLE and DELETE act on every task whose id
    matches, as `map` and `filter` do in the source.
- **The task list screen** (`TaskManager`): the guard that trims the input
  and rejects it when nothing is left, the all / active / completed view, and
  the counters. The component's state (the task list it receives, the input
  field, the filter) is the class `TaskManager.Component`. Its event
  handlers are methods of that class.
- **The remote records panel** (`ApiDataDisplay`):
  - case-insensitive substring search over users (name, email, company name)
    and over posts (title, body);
  - pagination with six records per page;
  - page and search resets on search and tab changes;
  - the prev/next clamps;
  - the post author lookup;
  - the all-or-nothing outcome of loading both collections.

  The component's `useState` fields make up the class
  `ApiDataDisplay.Component`.

The JavaScript built-ins the code relies on are modelled once, with their own
contracts:
- `JsArray`: `filter`, `map`, `find` and `slice`. The contract of `Filter`
  says the result keeps every element that satisfies the predicate, with its
  multiplicity, drops all others, and keeps the input's order.
  `FilterUnique` proves the converse: any list with those properties is the
  filter's result.
- `JsString`: `trim`, `toLowerCase` and `includes`.

Two behaviours of the code are easy to misread. The model keeps both as
written:
- Task ids are not guaranteed unique. The code takes them from the
  millisecond clock, so two additions in the same millisecond share an id.
  `TaskContext.SameMillisecondDuplicatesId` proves this.
  `TaskContext.AddKeepsUniqueIdsIff` proves that an addition keeps the ids
  unique exactly when its id is new.
- Toggle and delete do not act on "the task" with the id. They act on every
  task with that id.

## Model

| member | source | states |
|---|---|---|
| `JsArray.Filter` | my-task-manager/src/contexts/TaskContext.tsx:54 | `filter` keeps, with their multiplicity, exactly the elements that satisfy the callback, in their original order |
| `JsArray.FilterUnique` | my-task-manager/src/components/TaskManager.tsx:28-32 | a subsequence holding exactly the elements that satisfy the callback is the result of `filter`, so the filter contract determines the view |
| `JsArray.Map` | my-task-manager/src/contexts/TaskContext.tsx:48 | `map` keeps the length and puts the callback's image of each element at its index |
| `JsArray.Find` | my-task-manager/src/components/ApiDataDisplay.tsx:281 | `find` gives nothing exactly when no element satisfies the callback; otherwise the first element that does |
| `JsArray.Slice` | my-task-manager/src/components/ApiDataDisplay.tsx:91 | `slice(start, end)` with `0 <= start <= end` is the run between the two bounds clamped to the length; it is empty when `start` is past the end or `end <= start`, and never longer than the input |
| `JsString.Trim` | my-task-manager/src/components/TaskManager.tsx:22-23 | `trim` returns the input minus its leading and trailing white space, and neither end of the result is white space |
| `JsString.TrimEmptyIff` | my-task-manager/src/components/TaskManager.tsx:22 | the trimmed input is empty (falsy) exactly when the input is only white space |
| `JsString.TrimIdempotent` | my-task-manager/src/components/TaskManager.tsx:22-23 | trimming an already trimmed text changes nothing |
| `JsString.Includes` | my-task-manager/src/components/ApiDataDisplay.tsx:77-85 | `includes` holds exactly when the term occurs at some index of the string |
| `JsString.ToLowerCase` | my-task-manager/src/components/ApiDataDisplay.tsx:76-78 | `toLowerCase` keeps the length, leaves no upper-case ASCII letter, and changes a character only by mapping an upper-case letter to its lower-case one |
| `JsString.ToLowerCaseIdempotent` | my-task-manager/src/components/ApiDataDisplay.tsx:76-78 | lowercasing an already lowercased text changes nothing |
| `TaskContext.Reduce` | my-task-manager/src/contexts/TaskContext.tsx:31-66 | `taskReducer`: ADD_TASK lengthens the list by one, TOGGLE_TASK keeps its length, DELETE_TASK never lengthens it, LOAD_TASKS makes it the payload; the lemmas below pin each case down |
| `TaskContext.AddAppends` | my-task-manager/src/contexts/TaskContext.tsx:33-43 | ADD_TASK appends exactly one task at the end, with the payload as text, `completed` false and the clock's id and time; earlier tasks are unchanged |
| `TaskContext.ToggleFlipsMatching` | my-task-manager/src/contexts/TaskContext.tsx:45-49 | TOGGLE_TASK keeps length, order, ids, texts and creation times, and negates `completed` on exactly the tasks whose id matches |
| `TaskContext.ToggleTwice` | my-task-manager/src/contexts/TaskContext.tsx:48 | toggling the same id twice gives back the original list |
| `TaskContext.ToggleAbsent` | my-task-manager/src/contexts/TaskContext.tsx:48 | toggling an id no task has leaves the list equal |
| `TaskContext.DeleteRemovesMatching` | my-task-manager/src/contexts/TaskContext.tsx:51-55 | DELETE_TASK leaves an order-preserving subsequence with no task of that id and every task of another id, as often as it occurred |
| `TaskContext.DeleteIdempotent` | my-task-manager/src/contexts/TaskContext.tsx:54 | deleting an id twice equals deleting it once |
| `TaskContext.DeleteAbsent` | my-task-manager/src/contexts/TaskContext.tsx:54 | deleting an id no task has leaves the list equal |
| `TaskContext.LoadReplaces` | my-task-manager/src/contexts/TaskContext.tsx:57-61 | LOAD_TASKS replaces the list with the payload, whatever the list was |
| `TaskContext.AddKeepsUniqueIdsIff` | my-task-manager/src/contexts/TaskContext.tsx:34-42 | starting from unique ids, an addition keeps them unique exactly when the clock-derived id is not already used |
| `TaskContext.ToggleKeepsUniqueIds` | my-task-manager/src/contexts/TaskContext.tsx:48 | toggling keeps unique ids unique |
| `TaskContext.DeleteKeepsUniqueIds` | my-task-manager/src/contexts/TaskContext.tsx:54 | deleting keeps unique ids unique |
| `TaskContext.SameMillisecondDuplicatesId` | my-task-manager/src/contexts/TaskContext.tsx:35 | two additions that read the same millisecond leave two tasks with the same id |
| `TaskManager.FilterTasks` | my-task-manager/src/components/TaskManager.tsx:28-32 | "all" is the list itself; "active" / "completed" are, in list order, exactly the tasks that are not / are completed |
| `TaskManager.CountTasks` | my-task-manager/src/components/TaskManager.tsx:34-38 | `total` is the list length and `active + completed == total` |
| `TaskManager.ActiveCompletedPartition` | my-task-manager/src/components/TaskManager.tsx:28-32 | the active and completed views are disjoint, and together they hold every task exactly once |
| `TaskManager.FilteredCountMatchesStats` | my-task-manager/src/components/TaskManager.tsx:28-38 | the number of tasks shown is the counter of the selected filter |
| `TaskManager.BuyMilkScenario` | my-task-manager/src/contexts/TaskContext.tsx:33-55 | adding "Buy milk" gives one open task; toggling completes it (0 active, 1 completed); deleting empties the list |
| `TaskManager.AcceptedText` | my-task-manager/src/components/TaskManager.tsx:22-23 | input is rejected exactly when it is empty or only white space; accepted text is the trimmed input, non-empty, with no white space at either end |
| `TaskManager.SubmitNewTask` | my-task-manager/src/components/TaskManager.tsx:20-26 | a rejected input leaves list and input as they were; an accepted one appends one open task with the trimmed text and the clock's id and time, and clears the input |
| `TaskManager.SubmitTwiceAddsOnce` | my-task-manager/src/components/TaskManager.tsx:20-26 | submitting twice in a row adds the task once, because the first submit clears the input |
| `TaskManager.Component.constructor` | my-task-manager/src/components/TaskManager.tsx:16-18 | the input starts empty; the filter is the stored one |
| `TaskManager.Component.FilteredTasks` | my-task-manager/src/components/TaskManager.tsx:28-32 | the tasks on screen are, in list order, the whole list under "all" and exactly the open / completed tasks (with their multiplicity) under "active" / "completed", as many as the selected filter's counter |
| `TaskManager.Component.Stats` | my-task-manager/src/components/TaskManager.tsx:34-38 | `total` is the list length, `active` and `completed` are the sizes of the active and completed views, and they add up to `total` |
| `TaskManager.Component.HandleInputChange` | my-task-manager/src/components/TaskManager.tsx:98 | typing sets the input field |
| `TaskManager.Component.HandleAddTask` | my-task-manager/src/components/TaskManager.tsx:20-26 | the submit handler sets the task list and the input to what `SubmitNewTask` gives for their old values |
| `TaskManager.Component.HandleFilterChange` | my-task-manager/src/components/TaskManager.tsx:111-120 | a filter button selects its filter |
| `TaskManager.Component.HandleToggle` | my-task-manager/src/components/TaskManager.tsx:157 | the check button dispatches TOGGLE_TASK with the task's id |
| `TaskManager.Component.HandleDelete` | my-task-manager/src/components/TaskManager.tsx:179 | the delete button dispatches DELETE_TASK; the result is a subsequence with no task of that id |
| `ApiDataDisplay.UserMatches` | my-task-manager/src/components/ApiDataDisplay.tsx:76-79 | a user matches exactly when the lowercased term occurs in its lowercased name, email or company name; the empty term matches every user |
| `ApiDataDisplay.PostMatches` | my-task-manager/src/components/ApiDataDisplay.tsx:83-85 | a post matches exactly when the lowercased term occurs in its lowercased title or body; the empty term matches every post |
| `ApiDataDisplay.FilterUsers` | my-task-manager/src/components/ApiDataDisplay.tsx:75-80 | a user is kept, in order and with its multiplicity, exactly when the lowercased term occurs in its lowercased name, email or company name |
| `ApiDataDisplay.FilterPosts` | my-task-manager/src/components/ApiDataDisplay.tsx:82-86 | a post is kept, in order and with its multiplicity, exactly when the lowercased term occurs in its lowercased title or body |
| `ApiDataDisplay.EmptySearchKeepsAll` | my-task-manager/src/components/ApiDataDisplay.tsx:75-86 | the empty term keeps every user and every post |
| `ApiDataDisplay.SearchIgnoresTermCase` | my-task-manager/src/components/ApiDataDisplay.tsx:75-86 | terms that differ only in letter case select the same records |
| `ApiDataDisplay.AliceIsFound` | my-task-manager/src/components/ApiDataDisplay.tsx:75-80 | a user named "Alice Smith" is found by "alice" and by "ALICE" |
| `ApiDataDisplay.PageCount` | my-task-manager/src/components/ApiDataDisplay.tsx:89 | `totalPages` is the ceiling of the record count over 6: the fewest pages of six that hold all records |
| `ApiDataDisplay.PageItems` | my-task-manager/src/components/ApiDataDisplay.tsx:90-91 | a page never holds more than 6 records |
| `ApiDataDisplay.PageWithinRange` | my-task-manager/src/components/ApiDataDisplay.tsx:90-91 | page p in 1..totalPages is `currentData[(p-1)*6 .. min(p*6, len)]`, non-empty and at most 6 records |
| `ApiDataDisplay.PageBeyondRange` | my-task-manager/src/components/ApiDataDisplay.tsx:90-91 | a page past the last one is empty |
| `ApiDataDisplay.PagesArePrefix` | my-task-manager/src/components/ApiDataDisplay.tsx:89-91 | pages 1..k in order form the first min(6k, len) records |
| `ApiDataDisplay.PagesRebuildData` | my-task-manager/src/components/ApiDataDisplay.tsx:89-91 | pages 1..totalPages in order give back `currentData` exactly, with no omission or duplicate |
| `ApiDataDisplay.Author` | my-task-manager/src/components/ApiDataDisplay.tsx:281 | the author is the first user whose id is the post's `userId`, and there is none exactly when no user has that id |
| `ApiDataDisplay.Component.constructor` | my-task-manager/src/components/ApiDataDisplay.tsx:36-42 | no records, loading, no error, empty search, page 1, users tab |
| `ApiDataDisplay.Component.CurrentData` | my-task-manager/src/components/ApiDataDisplay.tsx:88 | the records shown are, in order and one for one, the searched users on the users tab and the searched posts on the posts tab |
| `ApiDataDisplay.Component.TotalPages` | my-task-manager/src/components/ApiDataDisplay.tsx:89 | `totalPages` is the fewest pages of six that hold the records shown |
| `ApiDataDisplay.Component.CurrentItems` | my-task-manager/src/components/ApiDataDisplay.tsx:90-91 | `currentItems` holds at most six records; on a page in 1..totalPages it is that page's non-empty run of the records shown, and past the last page it is empty |
| `ApiDataDisplay.Component.StartFetch` | my-task-manager/src/components/ApiDataDisplay.tsx:51-52 | loading starts and the error is cleared |
| `ApiDataDisplay.Component.FinishFetch` | my-task-manager/src/components/ApiDataDisplay.tsx:59-72 | both collections are taken only when both responses are ok; otherwise the error is set and both stay as they were; loading ends either way |
| `ApiDataDisplay.Component.FetchData` | my-task-manager/src/components/ApiDataDisplay.tsx:49-73 | afterwards loading is off; on success both lists are replaced and there is no error; on failure the error is set and the lists keep their old values |
| `ApiDataDisplay.Component.HandleSearch` | my-task-manager/src/components/ApiDataDisplay.tsx:93-96 | a new search term sends the view back to page 1 |
| `ApiDataDisplay.Component.HandleTabChange` | my-task-manager/src/components/ApiDataDisplay.tsx:98-102 | a tab change selects the tab, goes to page 1 and clears the search term |
| `ApiDataDisplay.Component.GoToPage` | my-task-manager/src/components/ApiDataDisplay.tsx:213-218 | a numbered button selects its page, which lies in 1..totalPages |
| `ApiDataDisplay.Component.PrevPage` | my-task-manager/src/components/ApiDataDisplay.tsx:206 | "previous" moves to `max(page - 1, 1)`, never below page 1, and keeps the page in range |
| `ApiDataDisplay.Component.NextPage` | my-task-manager/src/components/ApiDataDisplay.tsx:229 | "next" moves to `min(page + 1, totalPages)`, never past the last page, and keeps the page in range |
| `ApiDataDisplay.PostsFailureScenario` | my-task-manager/src/components/ApiDataDisplay.tsx:36-72 | from a fresh panel, users that load while the posts request fails leave the error "Failed to fetch data", no users, no posts, loading off and zero pages |

## Left out

- Loading tasks from `localStorage` on mount and saving them on every change
  (my-task-manager/src/contexts/TaskContext.tsx:72-90) are browser storage I/O.
  This includes the JSON round trip and turning `createdAt` back into a date.
  The model starts from an in-memory list. LOAD_TASKS, which the mount effect
  dispatches, is modelled.
- The clock (`Date.now()`, `new Date()`) is not modelled. The id and creation
  time of a new task are parameters of the model's ADD_TASK action and of
  `TaskManager.Component.HandleAddTask`.
- The reducer's `default` branch cannot be reached in the model. The model's
  action type is closed, so Dafny's `match` is exhaustive.
- The provider's `addTask` / `toggleTask` / `deleteTask`
  (my-task-manager/src/contexts/TaskContext.tsx:92-102) only dispatch. The
  component's handlers apply `Reduce` directly.
- The `useTasks` error raised outside a provider is React plumbing.
- The `useLocalStorage` hook that stores the filter is not part of this model.
  The stored filter is a constructor parameter of `TaskManager.Component`.
- `fetch`, `Promise.all`, `.json()` and the mount effect are network I/O and
  asynchrony. Loading is modelled as two steps, `StartFetch` and
  `FinishFetch`, over abstract "response ok" flags and the decoded payloads.
- ApiDataDisplay.Component.FinishFetch: models only the not-ok failure, with
  the message "Failed to fetch data". A rejected `fetch` or a body that is
  not JSON also ends in the `catch` and leaves both lists unchanged, but with
  that error's own message. Those messages are not modelled.
- JsString.ToLowerCase: lowercases only the ASCII letters A-Z. JavaScript's
  full Unicode case mapping is not modelled.
- Rendering (JSX) is not modelled. This covers the loading and error views,
  the "disabled" state of the prev/next buttons, and every file outside the
  three modelled components. When the page is in range, the clamps already
  make a disabled button's click a no-op.
- The pagination controls exist only when there is more than one page. So
  `GoToPage`, `PrevPage` and `NextPage` require `TotalPages() > 1`.
