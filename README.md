# Suggestion menu and activity logs of the TipTap lessons app

This project is a Dafny model of two pieces of the lessons app: the lesson-07
@mention suggestion system and the activity logs of the lesson-04 page.

**The @mention suggestion system (lesson 07)**

- `SuggestionQuery` models the `items({ query })` callback.
  - It keeps the candidates whose label contains the query, ignoring case.
  - Results stay in list order, at most five of them.
- `SuggestionList` models the `MentionList` component, a keyboard-navigable menu.
  - `selectedIndex` moves with JavaScript's `%`. On an empty list that gives `NaN`.
  - Enter hands the selected item to the `command` callback.
  - A new `items` prop resets the highlight to 0.
- `SuggestionPopup` models the render controller that `render()` returns.
  - It has the `popup`, `root` and `component` variables of its closure.
  - Its callbacks are `onStart`, `onUpdate`, `onKeyDown` and `onExit`.
  - The continuation of the dynamic `import('react-dom/client')` is a step of its own.

**The lesson-04 activity logs**

- `ActivityLog` models two logs: `pasteEvents`, written by the paste handler, and `ruleActivity`, written by the transaction listener and by the "test input rules" button.
- Both handlers keep the five newest entries. The button appends without trimming.

Stateful parts are classes whose methods are proved against pure step functions:

- `MentionList`
- `PopupController`
- `InputRulesPage`

The properties are lemmas about those functions.

**Behaviour of the code worth knowing:**

- The query "j" also matches the "j" of "Alice Johnson", so it gives three results.
- Clicking a row calls `command` with that row but does not move the highlight.
- ArrowUp/ArrowDown on an empty list still answer `true`, and they turn the index into `NaN`.
- Escape detaches the popup node but keeps `popup` and `root`, so a later `onUpdate` still re-renders into the detached node.
- The test button appends to the rule log without the five-entry bound, so that log can grow past five entries.

## Model

| member | source | states |
|---|---|---|
| `SuggestionQuery.LowerChar` | src/features/lesson-07/lesson-07.tsx:196 | `toLowerCase` on one character: ASCII capitals move down by 32 to a small letter, every other character is unchanged |
| `SuggestionQuery.ToLower` | src/features/lesson-07/lesson-07.tsx:196 | `toLowerCase` keeps the length and folds each character as `LowerChar` does |
| `SuggestionQuery.Includes` | src/features/lesson-07/lesson-07.tsx:196 | `includes` only succeeds when the needle is no longer than the label |
| `SuggestionQuery.IncludesSuffix` | src/features/lesson-07/lesson-07.tsx:196 | `includes` finds a needle that ends the label, as a consequence of the occurrence characterisation |
| `SuggestionQuery.IncludesIffOccurs` | src/features/lesson-07/lesson-07.tsx:196 | `includes` holds exactly when the needle occurs at some position of the label (an independent substring definition) |
| `SuggestionQuery.EmptyIncluded` | src/features/lesson-07/lesson-07.tsx:196 | every label includes the empty query |
| `SuggestionQuery.LabelMatches` | src/features/lesson-07/lesson-07.tsx:195-196 | the filter callback holds exactly when the lower-cased query occurs at some position of the lower-cased label |
| `SuggestionQuery.Matching` | src/features/lesson-07/lesson-07.tsx:195-196 | the filter never returns more candidates than it was given |
| `SuggestionQuery.MatchingMembers` | src/features/lesson-07/lesson-07.tsx:195-196 | a candidate is in the filtered list exactly when it was a candidate and its lower-cased label includes the lower-cased query |
| `SuggestionQuery.PrefixOfSubsequence` | src/features/lesson-07/lesson-07.tsx:197 | cutting an order-preserving selection to its first `n` elements keeps it order-preserving (what `.slice(0, 5)` relies on) |
| `SuggestionQuery.MatchingIsSubsequence` | src/features/lesson-07/lesson-07.tsx:195-196 | `filter` keeps the candidates in their list order |
| `SuggestionQuery.MatchingIgnoresCase` | src/features/lesson-07/lesson-07.tsx:196 | two queries with the same lower-case form filter identically |
| `SuggestionQuery.MatchingEmptyQuery` | src/features/lesson-07/lesson-07.tsx:196 | the empty query keeps every candidate |
| `SuggestionQuery.Items` | src/features/lesson-07/lesson-07.tsx:194-198 | at most five results; each is a listed candidate whose label matches; they keep list order; their number is min(5, number of matches); with five or fewer matches every match is listed |
| `SuggestionQuery.ItemsIgnoreCase` | src/features/lesson-07/lesson-07.tsx:196 | the results depend on the query only through its lower-case form |
| `SuggestionQuery.ItemsOfEmptyQuery` | src/features/lesson-07/lesson-07.tsx:9-15 | an empty query lists all five candidates in order |
| `SuggestionQuery.IncludesOneChar` | src/features/lesson-07/lesson-07.tsx:196 | a one-character query is included exactly when the label contains that character |
| `SuggestionQuery.NotIncludesTwoChars` | src/features/lesson-07/lesson-07.tsx:196 | a two-character query is not included when no adjacent pair of the label spells it |
| `SuggestionQuery.ItemsForJ` | src/features/lesson-07/lesson-07.tsx:9-15 | any query that lower-cases to "j" lists John Doe, Jane Smith and Alice Johnson, in that order |
| `SuggestionQuery.MatchingForJ` | src/features/lesson-07/lesson-07.tsx:195-196 | over five candidates labelled like the static list, "j" keeps the first three |
| `SuggestionQuery.FlagsForJ` | src/features/lesson-07/lesson-07.tsx:9-15 | which of the five lower-cased labels contain "j" |
| `SuggestionQuery.ItemsForAl` | src/features/lesson-07/lesson-07.tsx:9-15 | any query that lower-cases to "al" lists Alice Johnson only |
| `SuggestionQuery.MatchingForAl` | src/features/lesson-07/lesson-07.tsx:195-196 | over five candidates labelled like the static list, "al" keeps only the third |
| `SuggestionQuery.FlagsForAl` | src/features/lesson-07/lesson-07.tsx:9-15 | which of the five lower-cased labels contain "al" |
| `SuggestionQuery.JohnDoeMatches` | src/features/lesson-07/lesson-07.tsx:10 | a candidate labelled "John Doe" matches "j" and not "al" |
| `SuggestionQuery.JaneSmithMatches` | src/features/lesson-07/lesson-07.tsx:11 | a candidate labelled "Jane Smith" matches "j" and not "al" |
| `SuggestionQuery.AliceJohnsonMatches` | src/features/lesson-07/lesson-07.tsx:12 | a candidate labelled "Alice Johnson" matches both "j" and "al" |
| `SuggestionQuery.BobWilsonMatches` | src/features/lesson-07/lesson-07.tsx:13 | a candidate labelled "Bob Wilson" matches neither "j" nor "al" |
| `SuggestionQuery.CharlieBrownMatches` | src/features/lesson-07/lesson-07.tsx:14 | a candidate labelled "Charlie Brown" matches neither "j" nor "al" |
| `SuggestionQuery.MatchingOfFive` | src/features/lesson-07/lesson-07.tsx:195-196 | filtering five candidates keeps exactly those whose match flag is set, in order |
| `SuggestionQuery.LowerLabels` | src/features/lesson-07/lesson-07.tsx:9-15 | the lower-cased labels of the static list, spelled out |
| `SuggestionQuery.LowerJohnDoe` | src/features/lesson-07/lesson-07.tsx:10 | "John Doe" lower-cases to "john doe" |
| `SuggestionQuery.LowerJaneSmith` | src/features/lesson-07/lesson-07.tsx:11 | "Jane Smith" lower-cases to "jane smith" |
| `SuggestionQuery.LowerAliceJohnson` | src/features/lesson-07/lesson-07.tsx:12 | "Alice Johnson" lower-cases to "alice johnson" |
| `SuggestionQuery.LowerBobWilson` | src/features/lesson-07/lesson-07.tsx:13 | "Bob Wilson" lower-cases to "bob wilson" |
| `SuggestionQuery.LowerCharlieBrown` | src/features/lesson-07/lesson-07.tsx:14 | "Charlie Brown" lower-cases to "charlie brown" |
| `SuggestionQuery.LowerLiteral` | src/features/lesson-07/lesson-07.tsx:196 | `toLowerCase` is computed character by character |
| `SuggestionList.JsRem` | src/features/lesson-07/lesson-07.tsx:43-47 | JavaScript `%`: NaN exactly for a zero length; otherwise a remainder congruent to the dividend, smaller in magnitude than the length, with the dividend's sign |
| `SuggestionList.Up` | src/features/lesson-07/lesson-07.tsx:42-44 | on an empty list or from NaN the index becomes NaN; from a row it moves one row up, wrapping from the first row to the last |
| `SuggestionList.Down` | src/features/lesson-07/lesson-07.tsx:46-48 | on an empty list or from NaN the index becomes NaN; from a row it moves one row down, wrapping from the last row to the first |
| `SuggestionList.UpDownInverse` | src/features/lesson-07/lesson-07.tsx:42-48 | on a row of a non-empty list, up and down stay in range and undo each other |
| `SuggestionList.DownTimes` | src/features/lesson-07/lesson-07.tsx:46-48 | repeated ArrowDown presses keep an in-range index in range; on an empty list or from NaN they give NaN |
| `SuggestionList.UpTimes` | src/features/lesson-07/lesson-07.tsx:42-44 | repeated ArrowUp presses keep an in-range index in range; on an empty list or from NaN they give NaN |
| `SuggestionList.DownTimesAdvances` | src/features/lesson-07/lesson-07.tsx:46-48 | `k` ArrowDown presses from row `v` land on row `(v + k) mod n` |
| `SuggestionList.UpTimesRetreats` | src/features/lesson-07/lesson-07.tsx:42-44 | `k` ArrowUp presses from row `v` land on row `(v - k) mod n` |
| `SuggestionList.ModSuccessor` | src/features/lesson-07/lesson-07.tsx:47 | proof helper for the `%` arithmetic, not an operation of the source: the remainder of a successor is the successor of the remainder, wrapping to 0 at `n` |
| `SuggestionList.ModUnique` | src/features/lesson-07/lesson-07.tsx:43-47 | proof helper for the `%` arithmetic, not an operation of the source: the remainder is the only `r` in `[0, n)` with `a = q*n + r` |
| `SuggestionList.MulAtLeast` | src/features/lesson-07/lesson-07.tsx:43-47 | proof helper for the `%` arithmetic, not an operation of the source: a positive multiple of `n` is at least `n` |
| `SuggestionList.MultipleMod` | src/features/lesson-07/lesson-07.tsx:43-47 | proof helper for the `%` arithmetic, not an operation of the source: a multiple of `n` leaves remainder 0 |
| `SuggestionList.FullCycle` | src/features/lesson-07/lesson-07.tsx:42-48 | `n` presses of either arrow on an `n`-row list return to the starting row |
| `SuggestionList.ThreeDownsOfFive` | src/features/lesson-07/lesson-07.tsx:46-48 | three ArrowDown presses from the first of five rows select the fourth |
| `SuggestionList.SelectItem` | src/features/lesson-07/lesson-07.tsx:35-40 | an item is handed on exactly when the index names a row, and it is that row's item |
| `SuggestionList.KeyDown` | src/features/lesson-07/lesson-07.tsx:56-75 | handled exactly for ArrowUp, ArrowDown and Enter; other keys change nothing; each handled key's effect on the index and on `command` |
| `SuggestionList.KeyDownKeepsIndexOk` | src/features/lesson-07/lesson-07.tsx:33-75 | every key keeps the index 0, a row, or NaN on an empty list; on a non-empty list it ends on a row |
| `SuggestionList.EnterOnEmptyCallsNothing` | src/features/lesson-07/lesson-07.tsx:35-40 | Enter on an empty list or a NaN index is handled and calls nothing |
| `SuggestionList.MentionList.constructor` | src/features/lesson-07/lesson-07.tsx:33 | a new menu starts on index 0 with no commands issued |
| `SuggestionList.MentionList.SetItems` | src/features/lesson-07/lesson-07.tsx:54 | new items reset the index to 0 and issue no command |
| `SuggestionList.MentionList.SelectItemAt` | src/features/lesson-07/lesson-07.tsx:35-40 | `command` receives the indexed item when there is one, otherwise nothing |
| `SuggestionList.MentionList.UpHandler` | src/features/lesson-07/lesson-07.tsx:42-44 | the index becomes `Up` of the old index |
| `SuggestionList.MentionList.DownHandler` | src/features/lesson-07/lesson-07.tsx:46-48 | the index becomes `Down` of the old index |
| `SuggestionList.MentionList.EnterHandler` | src/features/lesson-07/lesson-07.tsx:50-52 | `command` receives the highlighted item, if any |
| `SuggestionList.MentionList.OnKeyDown` | src/features/lesson-07/lesson-07.tsx:56-75 | the answer, new index and issued command are those of `KeyDown` |
| `SuggestionList.MentionList.ClickRow` | src/features/lesson-07/lesson-07.tsx:88 | clicking a row hands that row's item to `command` |
| `SuggestionPopup.StartStep` | src/features/lesson-07/lesson-07.tsx:205-224 | without `clientRect` nothing changes; otherwise `popup` holds a new attached node and one more mount is pending |
| `SuggestionPopup.MountStep` | src/features/lesson-07/lesson-07.tsx:220-223 | the import continuation makes the root live and mounts a menu, using up one pending mount |
| `SuggestionPopup.EscapeStep` | src/features/lesson-07/lesson-07.tsx:241-244 | Escape detaches the node but keeps `popup` and `root` |
| `SuggestionPopup.ExitStep` | src/features/lesson-07/lesson-07.tsx:248-251 | the root is no longer live; the menu is unmounted; the node is detached |
| `SuggestionPopup.UpdateThrows` | src/features/lesson-07/lesson-07.tsx:227-229 | `onUpdate` never throws when a `clientRect` is supplied, nor before any popup exists |
| `SuggestionPopup.UpdateRenders` | src/features/lesson-07/lesson-07.tsx:227-237 | `onUpdate` renders only with a `clientRect`, a popup and no throw, and (while menu and root agree) only into a mounted menu |
| `SuggestionPopup.StepsKeepSessionOk` | src/features/lesson-07/lesson-07.tsx:205-251 | start, Escape and exit keep "a menu is mounted exactly while the root is live" |
| `SuggestionPopup.ExitIdempotent` | src/features/lesson-07/lesson-07.tsx:248-251 | running `onExit` twice is the same as once |
| `SuggestionPopup.StartWithoutRectCreatesNothing` | src/features/lesson-07/lesson-07.tsx:206-208 | `onStart` without `clientRect` creates no node and no pending mount |
| `SuggestionPopup.UpdateAfterEscapeStillRenders` | src/features/lesson-07/lesson-07.tsx:226-244 | after Escape, `onUpdate` re-renders exactly when it would have before |
| `SuggestionPopup.ExitBeforeMountLeavesMenuMounted` | src/features/lesson-07/lesson-07.tsx:220-223 | if `onExit` runs before the import resolves, the continuation still mounts a menu into a detached node |
| `SuggestionPopup.PopupKeyDown` | src/features/lesson-07/lesson-07.tsx:240-246 | Escape answers true; with no menu other keys answer false; otherwise the answer is true exactly for ArrowUp, ArrowDown and Enter |
| `SuggestionPopup.PopupController.constructor` | src/features/lesson-07/lesson-07.tsx:199-202 | all three variables start undefined |
| `SuggestionPopup.PopupController.OnStart` | src/features/lesson-07/lesson-07.tsx:205-224 | follows `StartStep`, queueing the props' items for the pending mount |
| `SuggestionPopup.PopupController.FinishMount` | src/features/lesson-07/lesson-07.tsx:220-223 | follows `MountStep`; a fresh menu over the oldest queued items, on index 0 |
| `SuggestionPopup.PopupController.OnUpdate` | src/features/lesson-07/lesson-07.tsx:226-238 | throws exactly when a popup is held and `clientRect` is missing; when it renders, the menu gets the new items and index 0; otherwise the menu is untouched |
| `SuggestionPopup.PopupController.OnKeyDown` | src/features/lesson-07/lesson-07.tsx:240-246 | keeps the pending mounts; answers `PopupKeyDown`; Escape follows `EscapeStep`; other keys go to the mounted menu as `KeyDown` says |
| `SuggestionPopup.PopupController.OnExit` | src/features/lesson-07/lesson-07.tsx:248-251 | follows `ExitStep` |
| `Wrappers.ToSeq` | src/features/lesson-07/lesson-07.tsx:37-39 | an optional item is zero or one `command` calls |
| `ActivityLog.Take` | src/features/lesson-04/lesson-04.tsx:42 | `slice(0, n)`: the first `min(n, length)` elements |
| `ActivityLog.TakeLast` | src/features/lesson-04/lesson-04.tsx:43 | `slice(-n)`: the last `min(n, length)` elements |
| `ActivityLog.PasteLogEntry` | src/features/lesson-04/lesson-04.tsx:42 | "Paste: " followed by the whole text when it is at most 50 characters, else its first 50 characters and "..." |
| `ActivityLog.ShortPasteRoundTrip` | src/features/lesson-04/lesson-04.tsx:42 | a paste of at most 50 characters can be read back from its entry |
| `ActivityLog.LongPastesShareEntry` | src/features/lesson-04/lesson-04.tsx:42 | longer pastes that agree on their first 50 characters give the same entry |
| `ActivityLog.RuleLogEntry` | src/features/lesson-04/lesson-04.tsx:54 | "Input rule triggered: " followed by the rule's JSON text |
| `ActivityLog.AppendBounded` | src/features/lesson-04/lesson-04.tsx:43 | the new entry is last, preceded by the newest `min(4, length)` old entries; at most five entries |
| `ActivityLog.AppendBoundedKeepsNewest` | src/features/lesson-04/lesson-04.tsx:43 | a bounded append keeps the five newest of the old entries plus the new one |
| `ActivityLog.AppendBoundedBelowCapacity` | src/features/lesson-04/lesson-04.tsx:43 | below five entries nothing is dropped |
| `ActivityLog.AppendAllKeepsNewest` | src/features/lesson-04/lesson-04.tsx:43 | after any run of bounded appends the log is the five newest of all entries ever written |
| `ActivityLog.TakeLastOfTakeLast` | src/features/lesson-04/lesson-04.tsx:43 | trimming before appending does not change the newest `n` |
| `ActivityLog.PastedText` | src/features/lesson-04/lesson-04.tsx:39 | the pasted text is empty exactly when there is no plain-text clipboard data or it is empty; otherwise it is that data |
| `ActivityLog.Apply` | src/features/lesson-04/lesson-04.tsx:37-80 | each page event changes only its own log: paste, input-rule transaction, test button (unbounded), clear (both emptied, only with an editor) |
| `ActivityLog.PasteLogStaysBounded` | src/features/lesson-04/lesson-04.tsx:43 | whatever events happen, the paste log holds at most five entries |
| `ActivityLog.RuleLogBoundedWithoutTestButton` | src/features/lesson-04/lesson-04.tsx:55 | without the test button the rule log holds at most five entries |
| `ActivityLog.RuleLogCanExceedCapacity` | src/features/lesson-04/lesson-04.tsx:72 | five rule transactions and then the test button leave six entries |
| `ActivityLog.InputRulesPage.constructor` | src/features/lesson-04/lesson-04.tsx:8-9 | both logs start empty |
| `ActivityLog.InputRulesPage.HandlePaste` | src/features/lesson-04/lesson-04.tsx:37-47 | logs the paste as `Apply` says and answers false, so the default paste runs |
| `ActivityLog.InputRulesPage.OnTransaction` | src/features/lesson-04/lesson-04.tsx:50-57 | logs a transaction that carries `inputRule` metadata, as `Apply` says |
| `ActivityLog.InputRulesPage.TestCustomInputRules` | src/features/lesson-04/lesson-04.tsx:61-73 | with an editor, the rule log grows by exactly one entry, untrimmed |
| `ActivityLog.InputRulesPage.ClearEditor` | src/features/lesson-04/lesson-04.tsx:75-80 | with an editor, both logs become empty; without one, nothing changes |

## Left out

- Popup positioning is not modelled: the `style` assignments, the pixel strings and the rectangle's coordinates.
- When `clientRect()` returns null inside `onStart`, reading `rect.bottom` throws after the node was appended. This is not modelled: `OnStart` only distinguishes whether a `clientRect` function was supplied.
- The timing of the dynamic import and of React's render and commit is not modelled. A mount is a separate step, `FinishMount`, that may run at any later point.
- `SuggestionPopup.PopupController.OnUpdate`: calling `root.render` on a root that an earlier `onExit` unmounted throws in React 18. The model renders nothing in that case but does not report the throw; `threw` covers only the missing `clientRect`.
- `ActivityLog.PasteLogEntry`: lengths and the 50-character cut are counted in Unicode scalar values (Dafny characters), not in JavaScript's UTF-16 code units. Text outside the Basic Multilingual Plane is therefore cut at a different place, and a cut through a surrogate pair cannot be represented.
- `SuggestionQuery.LowerChar`: only ASCII capitals are folded. Unicode case mapping, including characters whose lower case has another length, is not modelled.
- `SuggestionQuery.ItemsForJ`, `SuggestionQuery.ItemsForAl`: these worked examples are proved for the two queries "j" and "al" only, not for every query.
- `ActivityLog.RuleLogEntry`: `JSON.stringify` of the rule metadata is taken as an opaque string.
- Editor framework calls are not modelled: focusing, inserting "# ", clearing content, the default paste, and the transactions' own effect on the document.
- The `text/html` clipboard data is not modelled: the paste handler reads it but never uses it.
- JSX markup and CSS classes are not modelled. The "No matches found" fallback is only a rendering of an empty list.
- The items are assumed to be objects, so `if (item)` holds for every existing row.
- A second `onStart` in the same session replaces `popup` and leaks the earlier node. The model keeps only the newest node.
- `SlashCommandsList` is not wired into the editor. It has the same logic as `MentionList`, which is generic in the item type and so covers it.
