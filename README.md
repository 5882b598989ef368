# React-Elbit-Systems-2025: a verified model of the teaching corpus's logic

The repository is a React and TypeScript teaching corpus. Beneath its components sit many small,
sequential pieces of logic, and this project models them in Dafny and proves what they do:

- the form actions of the `useFormState` demo: the validators and the three-step wizard;
- the prime and Fibonacci worker and the web-workers page state;
- the list generators, filters and sorts of the `useTransition` and `useDeferredValue` demos and
  of the memoisation example;
- the `useOptimistic` updaters and guards, and the `useFormStatus` labels and messages;
- the settings reducer of the context app, and the settings and countries slices of the Redux app;
- the date-format substitution and the settings page's format selection;
- the population, category and job aggregations, and the generated `USERS` fixture;
- the TypeScript refresher's utilities: the shopping cart, the library search, the merged
  interfaces, the plugin app, the theme manager, the string helpers, the user and product
  modules, the two `keyof` scan searches and the generic object merge.

How the model is built:

- There is one module per source file, plus shared modules:
  - `Wrappers`: Option and Result;
  - `JsString`: the string built-ins, with ASCII case mapping and ASCII whitespace;
  - `JsObject`: a plain object used as an insertion-ordered dictionary;
  - `JsValue`: the values that `===` compares;
  - `Seqs`: `filter` and the stable `sort`;
  - `Tally`: per-key totals;
  - `JsRandom`: `Math.random()` as a parameter;
  - `Primes`: trial division, which the three prime searches share.
- Code that changes state in place becomes a class with `modifies` clauses, proved against
  functions of its fields. This covers the web-workers page, the Redux slices, the settings page,
  the shopping cart, the game character, the plugin app, the theme manager and the optimistic panels.
- Push loops become methods with loop invariants.
- Pure code becomes functions and lemmas.
- Random draws, clock readings, timestamps and ids are parameters.
- Prices with cents are kept as whole cents.

## Model

| member | source | states |
|---|---|---|
| Primes.PrimesUpToMembers | react/app_13/src/components/features/8-web-workers/calculation.worker.ts:65-85 | a number is in the prime list for a limit iff it is a prime between 2 and the limit |
| Primes.PrimesUpToIncreasing | react/app_13/src/components/features/8-web-workers/calculation.worker.ts:68-82 | the list is strictly ascending, so no number appears twice |
| Primes.PrimesUpToEmpty | react/app_13/src/components/features/8-web-workers/calculation.worker.ts:68 | a limit below 2 lists nothing |
| Primes.NoSmallDivisorIsPrime | react/app_13/src/components/features/8-web-workers/calculation.worker.ts:72-77 | a number with no divisor up to its square root is prime, so trial division may stop there |
| Primes.DivisorNotPrime | react/app_13/src/components/features/8-web-workers/calculation.worker.ts:73-75 | a divisor found by the inner loop shows the number is not prime |
| Primes.CalculatePrimes | react/app_13/src/components/features/8-web-workers/calculation.worker.ts:65-85 | the nested loop with its early break returns exactly the ascending primes up to the limit |
| Worker.CalculateFibonacci | react/app_13/src/components/features/8-web-workers/calculation.worker.ts:91-94 | n itself for n <= 1; non-negative from 0 on and at least 1 from 1 on |
| Worker.FibonacciMonotone | react/app_13/src/components/features/8-web-workers/calculation.worker.ts:91-94 | the sequence never decreases from index 0 on |
| Worker.FibonacciAddition | react/app_13/src/components/features/8-web-workers/calculation.worker.ts:91-94 | the addition law F(m+n+1) = F(m+1)F(n+1) + F(m)F(n), tying the naive recursion to the Fibonacci numbers |
| Worker.WorkerMessage.Kind | react/app_13/src/components/features/8-web-workers/Example.tsx:64-90 | a reply is of the catch-all kind exactly when its type is none of the five the handler switches on |
| Worker.OnMessage | react/app_13/src/components/features/8-web-workers/calculation.worker.ts:19-58 | CALCULATE_PRIMES answers PRIMES_RESULT with the primes and their count, FIBONACCI answers FIBONACCI_RESULT, HEAVY_COMPUTATION answers the progress messages and the completion of `performHeavyComputation`, an unknown type answers ERROR "Unknown operation type" |
| Worker.PerformHeavyComputation | react/app_13/src/components/features/8-web-workers/calculation.worker.ts:100-124 | the loop posts a PROGRESS message on every iteration that is a multiple of `floor(iterations / 10)`, none when that is 0, then one COMPUTATION_COMPLETE |
| Worker.ProgressInRange | react/app_13/src/components/features/8-web-workers/calculation.worker.ts:107-116 | every progress percentage lies in [0, 100) |
| Worker.NoProgressWhenChunkZero | react/app_13/src/components/features/8-web-workers/calculation.worker.ts:102-110 | with fewer than ten iterations the chunk size is 0, `i % 0` is never 0, and no progress is posted |
| Worker.HeavyShape | react/app_13/src/components/features/8-web-workers/calculation.worker.ts:100-124 | the answer is progress messages in [0, 100) followed by exactly one COMPUTATION_COMPLETE, last; below ten iterations only the completion |
| Worker.PrimesReplyIsExact | react/app_13/src/components/features/8-web-workers/calculation.worker.ts:25-31 | a PRIMES_RESULT reply lists exactly the primes up to the limit, ascending; below 2 it is empty |
| WebWorkersPage.BaseHandler | react/app_13/src/components/features/8-web-workers/Example.tsx:61-91 | every result reply (primes, Fibonacci, completion, error) clears the busy flag, PROGRESS keeps it, an unknown type changes nothing |
| WebWorkersPage.BaseHandlerTexts | react/app_13/src/components/features/8-web-workers/Example.tsx:65-89 | the PRIMES_RESULT text shows the count, the FIBONACCI_RESULT text the result, the ERROR text the message |
| WebWorkersPage.ChainTimeNoMatch | react/app_13/src/components/features/8-web-workers/Example.tsx:175-184 | a reply no timing wrapper watches leaves the worker time unchanged |
| WebWorkersPage.ChainTime | react/app_13/src/components/features/8-web-workers/Example.tsx:175-184 | the worker time after a reply has passed through the stacked timing wrappers; ChainTimeNoMatch, ChainTimeEarliest and OnlyTimerDecides state which wrapper decides it |
| WebWorkersPage.ChainTimeEarliest | react/app_13/src/components/features/8-web-workers/Example.tsx:175-184 | otherwise the earliest wrapper watching the reply's type decides the time, measured from its own request |
| WebWorkersPage.NextFrame | react/app_13/src/components/features/8-web-workers/Example.tsx:107 | the animation angle stays in [0, 360) |
| WebWorkersPage.FrameAfterIs | react/app_13/src/components/features/8-web-workers/Example.tsx:106-111 | k animation steps advance the angle by k modulo 360 |
| WebWorkersPage.WorkerPanel.constructor | react/app_13/src/components/features/8-web-workers/Example.tsx:32-58 | every state field starts empty, zero or false; no wrappers and no requests yet |
| WebWorkersPage.WorkerPanel.HandleWorkerMessage | react/app_13/src/components/features/8-web-workers/Example.tsx:61-91 | a reply reaches the mount-time handler through every wrapper; the worker time is the wrapper chain's; nothing else changes |
| WebWorkersPage.WorkerPanel.Animate | react/app_13/src/components/features/8-web-workers/Example.tsx:106-109 | one frame advances the angle by one modulo 360 and keeps the panel valid; the busy flags, times, worker, wrappers and requests stay as they were |
| WebWorkersPage.WorkerPanel.ClickCounter | react/app_13/src/components/features/8-web-workers/Example.tsx:274 | the counter goes up by one and the panel stays valid; the results, the angle, the busy flags, times, worker, wrappers and requests stay |
| WebWorkersPage.WorkerPanel.CalculateOnMainThread | react/app_13/src/components/features/8-web-workers/Example.tsx:121-149 | the result text counts exactly the primes up to the limit; the time is the measured interval; the busy flag ends false; worker state untouched |
| WebWorkersPage.WorkerPanel.FibonacciMainThread | react/app_13/src/components/features/8-web-workers/Example.tsx:190-208 | the result text shows n and its Fibonacci number; the time is the measured interval; the busy flag ends false |
| WebWorkersPage.WorkerPanel.CalculateWithWorker | react/app_13/src/components/features/8-web-workers/Example.tsx:156-185 | without a worker only "Worker not initialized" is shown; otherwise the worker is busy, one CALCULATE_PRIMES request is posted and one more timing wrapper is added; the main-thread busy flag and time stay |
| WebWorkersPage.WorkerPanel.CalculateWithWorkerTimed | react/app_13/src/components/features/8-web-workers/Example.tsx:156-185 | as above, but afterwards the next PRIMES_RESULT is timed from this request, whatever came before, every other reply type keeps the time it had, and the main-thread state stays |
| WebWorkersPage.WorkerPanel.FibonacciWorker | react/app_13/src/components/features/8-web-workers/Example.tsx:213-236 | without a worker nothing changes; otherwise one FIBONACCI request is posted and one FIBONACCI_RESULT wrapper is added; the main-thread busy flag and time stay |
| WebWorkersPage.Without | react/app_13/src/components/features/8-web-workers/Example.tsx:175-184 | the timers kept watch some other reply type |
| WebWorkersPage.WithoutKeepsOthers | react/app_13/src/components/features/8-web-workers/Example.tsx:175-184 | dropping the wrappers of one reply type leaves the timing of every other reply type as it was |
| WebWorkersPage.ReplacedTimerKeepsOthers | react/app_13/src/components/features/8-web-workers/Example.tsx:175-184 | replacing the wrappers of one reply type by a new one leaves the timing of every other reply type as it was |
| WebWorkersPage.OnlyTimerDecides | react/app_13/src/components/features/8-web-workers/Example.tsx:175-184 | a single wrapper for a reply type alone decides that reply's time |
| WebWorkersPage.SecondRequestTimedFromFirst | react/app_13/src/components/features/8-web-workers/Example.tsx:175-184 | as written, requests at 0 and 100 and a reply at 110 report 110 ms, not 10 ms |
| App12.Doubled | react/app_12/src/App.tsx:13 | the doubled count is the count added to itself |
| App12.Tripled | react/app_12/src/App.tsx:14 | the tripled count is the doubled count plus the count |
| App12.CalculatePrimes | react/app_12/src/App.tsx:158-172 | a number is returned iff it is a prime up to max; the list is strictly ascending |
| App12.AllItems | react/app_12/src/App.tsx:250-256 | 10000 items; item i has id i, name "Item i" and value (7i) mod 1000, inside [0, 1000) |
| App12.ItemNamesDistinct | react/app_12/src/App.tsx:253 | different indices give different item names |
| App12.Toggle | react/app_12/src/App.tsx:296 | the sort-order button always changes the order |
| App12.ToggleTwice | react/app_12/src/App.tsx:296 | two presses restore the order |
| Seqs.SortByStable | react/app_12/src/App.tsx:266-268 | the sort is stable: the items with any one key come out in the order they went in |
| App12.FilteredAndSorted | react/app_12/src/App.tsx:259-271 | exactly the matching items, each as often as in the input, ascending by value for 'asc' and descending for 'desc' |
| App12.EmptyTermKeepsAll | react/app_12/src/App.tsx:262-264 | an empty search term keeps every item, reordered |
| Search.MatchesEmpty | react/app_react_19/src/components/features/5-use-transition/Example.tsx:15-17 | every item contains the empty query |
| Search.FilterItems | react/app_react_19/src/components/features/5-use-transition/Example.tsx:6-18 | an empty query returns the list itself; otherwise exactly the items containing the query ignoring case, each as often as in the input, in their original order |
| Search.FilterItemsIgnoresQueryCase | react/app_react_19/src/components/features/5-use-transition/Example.tsx:16 | the query's letter case does not change the result |
| Search.MatchesIgnoresItemCase | react/app_react_19/src/components/features/5-use-transition/Example.tsx:16 | nor does the item's letter case |
| Search.MatchesPrefix | react/app_react_19/src/components/features/5-use-transition/Example.tsx:15-17 | an item matching a query matches each of its prefixes |
| Search.FilterItemsNarrows | react/app_react_19/src/components/features/5-use-transition/Example.tsx:15-17 | extending the query can only narrow the result |
| TransitionExample.GenerateItems | react/app_react_19/src/components/features/5-use-transition/Example.tsx:21-29 | count titles (none for count <= 0); title i is "<category i mod 8> Tutorial <i+1>" |
| TransitionExample.TutorialsDistinct | react/app_react_19/src/components/features/5-use-transition/Example.tsx:26 | different indices give different titles |
| TransitionExample.TutorialMatchesCategory | react/app_react_19/src/components/features/5-use-transition/Example.tsx:25-26 | each title matches a search for its own category name |
| TransitionExample.GenerateTabContent | react/app_react_19/src/components/features/5-use-transition/Example.tsx:94-100 | count items; item i is "<id> Item <i+1>" |
| TransitionExample.TabItemsDistinct | react/app_react_19/src/components/features/5-use-transition/Example.tsx:97 | different indices give different items in a tab |
| TransitionExample.Tabs | react/app_react_19/src/components/features/5-use-transition/Example.tsx:102-106 | three tabs posts, comments and users, titled Posts, Comments and Users, with 1000 generated items each |
| TransitionExample.GenerateProducts | react/app_react_19/src/components/features/5-use-transition/Example.tsx:215-226 | count products; product i is named "Product <i+1>", price in [10, 1010) and rating in [1, 5] from its two draws |
| TransitionExample.SortProducts | react/app_react_19/src/components/features/5-use-transition/Example.tsx:240-244 | the sort on a copy is a permutation, ascending by price for "price" and descending by rating for "rating" |
| TransitionExercise.GenerateItems | react/app_13/src/components/features/5-use-transition/Exercise.tsx:6-12 | count items (none for count <= 0); item i is "<prefix> <i+1>" |
| TransitionExercise.NumberedDistinct | react/app_13/src/components/features/5-use-transition/Exercise.tsx:9 | different indices give different items |
| TransitionExercise.GenerateProducts | react/app_13/src/components/features/5-use-transition/Exercise.tsx:183-196 | count products; product i has id i, name "Product <i+1>", category categories[i mod 5], price in [10, 510) from its first draw and stock from its second |
| TransitionExercise.FilterProducts | react/app_13/src/components/features/5-use-transition/Exercise.tsx:200-218 | a product is kept iff its category matches (or the category is "all"), it is in stock when only stocked products are asked for, and its price is at most the cap; order is kept |
| TransitionExercise.FilterProductsOpen | react/app_13/src/components/features/5-use-transition/Exercise.tsx:212-217 | with "all", any stock and a cap above every price, nothing is dropped |
| TransitionExercise.FilterProductsPriceMonotone | react/app_13/src/components/features/5-use-transition/Exercise.tsx:215 | raising the price cap never hides a product that was shown |
| TransitionExercise.ProductFilterPanel.AsWritten | react/app_13/src/components/features/5-use-transition/Exercise.tsx:221-224 | the initial state as written: "all", unchecked, cap 500, the whole catalogue on screen |
| TransitionExercise.ProductFilterPanel.constructor | react/app_13/src/components/features/5-use-transition/Exercise.tsx:221-224 | the same filters with the list on screen agreeing with them |
| TransitionExercise.ProductFilterPanel.HandleFilterChange | react/app_13/src/components/features/5-use-transition/Exercise.tsx:229-247 | each filter passed is set, each one left undefined keeps its value, and the list on screen becomes the catalogue filtered by the resulting filters |
| TransitionExercise.InitialListIgnoresMaxPrice | react/app_13/src/components/features/5-use-transition/Exercise.tsx:191-224 | a price of 509 can be drawn, and such a product is on screen at start although the cap of 500 hides it |
| DeferredExercise.GenerateProducts | react/app_13/src/components/features/6-use-deferred-value/Exercise.tsx:6-19 | count products; product i has id i, name "Product <i+1>", category categories[i mod 6], price in [10, 1010) and a rating of 0.0 to 5.0 |
| DeferredExercise.FilterProducts | react/app_13/src/components/features/6-use-deferred-value/Exercise.tsx:24-37 | a product is kept iff the query is empty or occurs in its name ignoring case, and the category is "all" or equals its own; order is kept |
| DeferredExercise.FilterProductsEverything | react/app_13/src/components/features/6-use-deferred-value/Exercise.tsx:31-35 | an empty query with category "all" keeps the whole list |
| DeferredExercise.FilterProductsComposes | react/app_13/src/components/features/6-use-deferred-value/Exercise.tsx:31-35 | both conditions must hold: filtering by both is filtering by the query, then by the category |
| DeferredExercise.SortProducts | react/app_13/src/components/features/6-use-deferred-value/Exercise.tsx:209-213 | the sort on a copy is a permutation, ascending by price for "price" and descending by rating otherwise |
| DeferredExample.GenerateItems | react/app_react_19/src/components/features/6-use-deferred-value/Example.tsx:21-29 | count items; item i is "<category i mod 6> Item <i+1>" |
| DeferredExample.ItemsDistinct | react/app_react_19/src/components/features/6-use-deferred-value/Example.tsx:26 | different indices give different items |
| DeferredExample.FreshResultsMatchQuery | react/app_react_19/src/components/features/6-use-deferred-value/Example.tsx:36-43 | when the search is not stale, the results shown are exactly the matches of the query just typed |
| DeferredExample.IsStale | react/app_react_19/src/components/features/6-use-deferred-value/Example.tsx:43 | stale iff the typed value differs from the deferred one; FreshResultsMatchQuery shows that a non-stale search shows the matches of the typed query |
| DeferredExample.RenderContent | react/app_react_19/src/components/features/6-use-deferred-value/Example.tsx:135-145 | 1000 lines; line i is "<tab> Item <i+1>" |
| DeferredExample.ShownTabContent | react/app_react_19/src/components/features/6-use-deferred-value/Example.tsx:177-179 | the panel shows the first 20 lines of the deferred tab and reports the other 980 |
| UseFormState.ValidateEmail | react/app_13/src/components/features/4-use-form-state/Example.tsx:27-45 | a name shorter than 2 (or missing) is refused first, then an email without '@'; success iff both rules hold, with the welcome text naming both |
| UseFormState.WelcomeNamesEmail | react/app_13/src/components/features/4-use-form-state/Example.tsx:40-44 | a welcome names the submitted email, and that email contains '@' |
| UseFormState.SignupErrors.KeyCount | react/app_13/src/components/features/4-use-form-state/Example.tsx:116 | the number of keys of the errors record is at most 4 and is 0 iff no message was set |
| UseFormState.ValidateSignup | react/app_13/src/components/features/4-use-form-state/Example.tsx:87-121 | errors are returned iff some rule fails, each field's message present iff its own rule fails; otherwise "Account created for <username>!" |
| UseFormState.CreatedMeansAllRulesHold | react/app_13/src/components/features/4-use-form-state/Example.tsx:100-120 | a created account has a username of at least 3 characters, a password of at least 6 confirmed identically, and an email with '@' |
| UseFormState.SubmitToServer | react/app_13/src/components/features/4-use-form-state/Example.tsx:200-229 | a missing title throws; a title containing "spam" in any case is flagged; after a clean title a missing content throws and content under 10 characters is refused; otherwise the post is published with the clock reading as its id |
| UseFormState.SpamInAnyCase | react/app_13/src/components/features/4-use-form-state/Example.tsx:210 | "spam" spelt in any letter case anywhere in the title gets the post flagged |
| UseFormState.SubmitPage | react/app_13/src/components/features/4-use-form-state/Example.tsx:302-321 | a page with both fields filled merges them into the data and moves one step on; otherwise it stays with "Please fill all fields" and the data unchanged; other keys are untouched |
| UseFormState.HandleMultiStep | react/app_13/src/components/features/4-use-form-state/Example.tsx:293-324 | step 1 collects name and email, step 2 address and city, any other step returns the state unchanged |
| UseFormState.NullIsInitial | react/app_13/src/components/features/4-use-form-state/Example.tsx:299-300 | a null previous state behaves like the initial state |
| UseFormState.StepAdvancesByAtMostOne | react/app_13/src/components/features/4-use-form-state/Example.tsx:293-324 | a submission keeps the wizard between steps 1 and 3 and moves it forward by at most one; step 3 is final |
| UseFormState.CompletionKeepsPersonalData | react/app_13/src/components/features/4-use-form-state/Example.tsx:314-321 | completing the address step keeps the name and email collected before |
| FormFields.Interpolate | react/app_13/src/components/features/4-use-form-state/Example.tsx:44 | a present field prints as its own text, a missing one as "null" |
| FormFields.Rendered | react/app_13/src/components/features/4-use-form-state/Example.tsx:139 | a present field renders as its own text, a missing one as nothing |
| UseOptimistic.Append | react/app_react_19/src/components/features/2-use-optimistic/Example.tsx:48-49 | the updater keeps the old list as a prefix and puts the new item last |
| UseOptimistic.AddAmount | react/app_react_19/src/components/features/2-use-optimistic/Example.tsx:117 | the like updater moves the count by exactly the amount |
| UseOptimistic.BlankIff | react/app_react_19/src/components/features/2-use-optimistic/Example.tsx:53 | input counts as blank iff every character is whitespace |
| UseOptimistic.FindById | react/app_react_19/src/components/features/2-use-optimistic/Example.tsx:96 | a found todo is in the list with that id; nothing is found iff no todo has it |
| UseOptimistic.ConfirmedNotPending | react/app_react_19/src/components/features/2-use-optimistic/Example.tsx:96-97 | a confirmed todo never shows "Saving..." |
| UseOptimistic.Pending | react/app_react_19/src/components/features/2-use-optimistic/Example.tsx:96-98 | the "Saving..." badge shows iff no confirmed todo has the displayed todo's id |
| UseOptimistic.TodoList.constructor | react/app_react_19/src/components/features/2-use-optimistic/Example.tsx:40-49 | the two starting todos are confirmed and shown, the input is empty |
| UseOptimistic.TodoList.Type | react/app_react_19/src/components/features/2-use-optimistic/Example.tsx:82 | typing sets the input and nothing else |
| UseOptimistic.TodoList.HandleSubmit | react/app_react_19/src/components/features/2-use-optimistic/Example.tsx:51-64 | blank input changes nothing; otherwise a temporary todo with the clock's id is shown last, the input is cleared and its text awaits saving |
| UseOptimistic.TodoList.TodoSaved | react/app_react_19/src/components/features/2-use-optimistic/Example.tsx:67-68 | the saved todo is appended to the confirmed list, which is then what is shown |
| UseOptimistic.NewTodoPending | react/app_react_19/src/components/features/2-use-optimistic/Example.tsx:56-97 | right after a submit the new todo is shown last and marked "Saving..." |
| UseOptimistic.Like | react/app_react_19/src/components/features/2-use-optimistic/Example.tsx:120-129 | one press flips the liked flag and moves the count by -1 when liked, +1 otherwise |
| UseOptimistic.LikeTwice | react/app_react_19/src/components/features/2-use-optimistic/Example.tsx:120-129 | two presses restore count and flag |
| UseOptimistic.LikeButton.constructor | react/app_react_19/src/components/features/2-use-optimistic/Example.tsx:112-113 | 42 likes, not liked |
| UseOptimistic.LikeButton.HandleLike | react/app_react_19/src/components/features/2-use-optimistic/Example.tsx:120-133 | a press together with its delayed count update, taken as settled before the next press: the flag flips and the count moves by one, so under that assumption the count stays 42 plus one while liked |
| UseOptimistic.MessageList.constructor | react/app_react_19/src/components/features/2-use-optimistic/Example.tsx:156-165 | the two starting messages, none flagged as sending |
| UseOptimistic.MessageList.Type | react/app_react_19/src/components/features/2-use-optimistic/Example.tsx:209 | typing sets the input and nothing else |
| UseOptimistic.MessageList.HandleSend | react/app_react_19/src/components/features/2-use-optimistic/Example.tsx:167-180 | blank input changes nothing; otherwise a temporary message flagged as sending is shown last and the input is cleared |
| UseOptimistic.MessageList.MessageSent | react/app_react_19/src/components/features/2-use-optimistic/Example.tsx:182-183 | the message sent is appended unflagged to the confirmed list, which is then shown |
| UseFormStatus.StatusButton | react/app_13/src/components/features/3-use-form-status/Example.tsx:14-22 | a status button is disabled iff the form is pending, and shows its busy text iff pending, its idle text otherwise |
| UseFormStatus.SubmitButton | react/app_13/src/components/features/3-use-form-status/Example.tsx:10-25 | disabled iff pending; "Submitting..." iff pending, else "Submit" |
| UseFormStatus.SaveButton | react/app_13/src/components/features/3-use-form-status/Example.tsx:73-87 | disabled iff pending; "Saving..." iff pending, else "Save Draft" |
| UseFormStatus.PublishButton | react/app_13/src/components/features/3-use-form-status/Example.tsx:89-103 | disabled iff pending; "Publishing..." iff pending, else "Publish" |
| UseFormStatus.BothActionsBlockedWhilePending | react/app_13/src/components/features/3-use-form-status/Example.tsx:81-97 | while the two-action form is pending neither button can be pressed, and both can when it is not |
| UseFormStatus.BasicResult | react/app_13/src/components/features/3-use-form-status/Example.tsx:30-35 | the message names both submitted fields |
| UseFormStatus.ActionResult | react/app_13/src/components/features/3-use-form-status/Example.tsx:108-113 | "Published: <title>" when the publish button was pressed, "Saved: <title>" for any other action |
| UseFormStatus.PublishedIff | react/app_13/src/components/features/3-use-form-status/Example.tsx:112 | the message starts with "Published" iff the publish button was pressed |
| UseFormStatus.ProgressButton | react/app_13/src/components/features/3-use-form-status/Example.tsx:152-159 | disabled iff pending; "Processing..." iff pending, else "Submit Form" |
| UseFormStatus.ProgressText | react/app_13/src/components/features/3-use-form-status/Example.tsx:160-168 | the progress line exists iff the form is pending with data, and names the submitted name |
| UseFormStatus.ProgressResult | react/app_13/src/components/features/3-use-form-status/Example.tsx:177-181 | "Successfully registered <name>!", with "null" for a missing name |
| UseFormStatus.ProgressResultNamesUser | react/app_13/src/components/features/3-use-form-status/Example.tsx:177-181 | two submitted names with the same message are the same name, so the message identifies who registered |
| UseFormStatus.InputsDisabled | react/app_13/src/components/features/3-use-form-status/Example.tsx:218-258 | the three inputs are disabled exactly while the form is pending |
| UseFormStatus.SignupButton | react/app_13/src/components/features/3-use-form-status/Example.tsx:261-276 | disabled iff pending; "Creating Account..." iff pending, else "Sign Up" |
| UseFormStatus.SignupResult | react/app_13/src/components/features/3-use-form-status/Example.tsx:281-285 | "Account created for <username>!", with "null" for a missing username |
| UseFormStatus.SignupResultNamesUser | react/app_13/src/components/features/3-use-form-status/Example.tsx:281-285 | two submitted usernames with the same message are the same username |
| SettingsContext.SettingsReducer | react/app_10/my-react-app/src/context/SettingsContext.tsx:40-53 | SET_TIMEZONE sets only the timezone, SET_DATE_FORMAT only the date format, any other action returns the state; the expense limit never changes |
| SettingsContext.ReducerIdempotent | react/app_10/my-react-app/src/context/SettingsContext.tsx:45-52 | dispatching the same action twice has the effect of once |
| SettingsContext.TimezoneAndFormatCommute | react/app_10/my-react-app/src/context/SettingsContext.tsx:46-49 | setting the timezone and the date format are independent of order |
| SettingsContext.ExpenseLimitNeverChanges | react/app_10/my-react-app/src/context/SettingsContext.tsx:40-53 | no sequence of actions changes the expense limit |
| SettingsContext.LastDateFormatWins | react/app_10/my-react-app/src/context/SettingsContext.tsx:48-49 | after any sequence of actions the date format is the one set last, or the starting one |
| SettingsContext.LimitStaysFive | react/app_10/my-react-app/src/context/SettingsContext.tsx:33-37 | from the initial state the limit stays 5 |
| SettingsSlice.Reduce | react/app_11/my-react-app/src/store/slices/settingsSlice.ts:20-30 | each case reducer assigns exactly its own field from the payload; an action of another slice changes nothing |
| SettingsSlice.ReduceIdempotent | react/app_11/my-react-app/src/store/slices/settingsSlice.ts:21-29 | each case reducer is idempotent |
| SettingsSlice.DifferentFieldsCommute | react/app_11/my-react-app/src/store/slices/settingsSlice.ts:21-29 | reducers of different fields commute |
| SettingsSlice.SettingsStore.constructor | react/app_11/my-react-app/src/store/slices/settingsSlice.ts:11-15 | the store starts at UTC, "MM/DD/YYYY" and limit 10 |
| SettingsSlice.SettingsStore.Dispatch | react/app_11/my-react-app/src/store/slices/settingsSlice.ts:21-29 | a dispatch updates the store to the reducer's result for the action |
| CountriesSlice.Reduce | react/app_11/my-react-app/src/store/slices/countriesSlice.ts:55-97 | field by field: countries replaced only by a fulfilled request, loading true while pending and false once settled, error cleared by clearError and pending and set by a rejection, filter set by setFilter and a search, reset by a fetch |
| CountriesSlice.ReducePreservesLoadingRule | react/app_11/my-react-app/src/store/slices/countriesSlice.ts:69-95 | no action leads to a state that is loading and shows an error |
| CountriesSlice.RejectionKeepsCountries | react/app_11/my-react-app/src/store/slices/countriesSlice.ts:78-95 | a failed request keeps the countries already shown |
| CountriesSlice.RejectPayload | react/app_11/my-react-app/src/store/slices/countriesSlice.ts:30-51 | an Error's message, otherwise "An unknown error occurred" |
| CountriesSlice.FetchOutcome | react/app_11/my-react-app/src/store/slices/countriesSlice.ts:24-37 | a successful fetch fulfils with the countries, a failed one rejects with the mapped payload |
| CountriesSlice.SearchOutcome | react/app_11/my-react-app/src/store/slices/countriesSlice.ts:40-53 | a successful search fulfils with the countries and the name as filter, a failed one rejects |
| CountriesSlice.SearchRoundTrip | react/app_11/my-react-app/src/store/slices/countriesSlice.ts:40-95 | a whole search ends not loading: on success with the results and the name as filter and no error, on failure with the old countries and filter and the mapped error |
| CountriesSlice.CountriesStore.constructor | react/app_11/my-react-app/src/store/slices/countriesSlice.ts:16-21 | the store starts empty, not loading, without error and with an empty filter |
| CountriesSlice.CountriesStore.Dispatch | react/app_11/my-react-app/src/store/slices/countriesSlice.ts:55-97 | a dispatch updates the store to the reducer's result |
| FormatDate.MonthText | react/app_11/my-react-app/src/components/pages/countries/index.tsx:39 | two digits that read back as the month counted from 1 |
| FormatDate.DayText | react/app_11/my-react-app/src/components/pages/countries/index.tsx:40 | two digits that read back as the day |
| FormatDate.TwoDigits | react/app_11/my-react-app/src/components/pages/countries/index.tsx:39-40 | a number from 1 to 31 padded to two digits that read back as the number |
| FormatDate.PadZeroKeepsValue | react/app_11/my-react-app/src/components/pages/countries/index.tsx:39-40 | a leading zero pad keeps a digit string's value |
| FormatDate.ReplaceFirstAfter | react/app_11/my-react-app/src/components/pages/countries/index.tsx:43-45 | the first occurrence of the token is the one replaced |
| FormatDate.ReplaceFirstAbsent | react/app_11/my-react-app/src/components/pages/countries/index.tsx:43-45 | a format without the token is left alone |
| FormatDate.FormatDateFields | react/app_11/my-react-app/src/components/pages/countries/index.tsx:37-46 | for every date and every format with "YYYY", "MM" and "DD" once each in that order and no earlier token letters, the result is the format with the year, the two-digit month and the two-digit day in their places |
| FormatDate.FormatDate | react/app_11/my-react-app/src/components/pages/countries/index.tsx:37-46 | the first "YYYY", then the first "MM", then the first "DD" replaced; FormatDateFields, NoTokensUnchanged and OnlyFirstTokenReplaced state the result for every date and format |
| FormatDate.Dec31Fields | react/app_11/my-react-app/src/components/pages/countries/index.tsx:38-40 | 31 December 2024 prints as year "2024", month "12", day "31" |
| FormatDate.PresetMonthFirst | react/app_11/my-react-app/src/components/pages/countries/index.tsx:37-46 | "MM/DD/YYYY" formats the last day of 2024 as "12/31/2024", the preset's own example |
| FormatDate.PresetDayFirst | react/app_11/my-react-app/src/components/pages/countries/index.tsx:37-46 | "DD/MM/YYYY" gives "31/12/2024" |
| FormatDate.PresetYearFirst | react/app_11/my-react-app/src/components/pages/countries/index.tsx:37-46 | "YYYY-MM-DD" gives "2024-12-31" |
| FormatDate.NoTokensUnchanged | react/app_11/my-react-app/src/components/pages/countries/index.tsx:42-45 | a format with none of the tokens is returned unchanged |
| FormatDate.OnlyFirstTokenReplaced | react/app_11/my-react-app/src/components/pages/countries/index.tsx:45 | only the first "DD" is replaced: "DD.DD" gives "31.DD" |
| SettingsPage.SettingsPageState.constructor | react/app_11/my-react-app/src/components/pages/settings/index.tsx:7-11 | the page starts with an empty custom text, not custom |
| SettingsPage.SettingsPageState.HandleTimezoneChange | react/app_11/my-react-app/src/components/pages/settings/index.tsx:13-15 | only the timezone is dispatched; the page's own fields stay |
| SettingsPage.SettingsPageState.HandleDateFormatChange | react/app_11/my-react-app/src/components/pages/settings/index.tsx:23-27 | the preset becomes the format, the custom text is cleared, and exactly that preset is highlighted |
| SettingsPage.SettingsPageState.PresetActive | react/app_11/my-react-app/src/components/pages/settings/index.tsx:97-100 | a preset is highlighted iff it is the stored format and no custom format is applied; HandleDateFormatChange and HandleCustomFormatSubmit state which preset is highlighted after each |
| SettingsPage.SettingsPageState.SetCustomFormat | react/app_11/my-react-app/src/components/pages/settings/index.tsx:10 | typing sets the custom text only |
| SettingsPage.SettingsPageState.HandleCustomFormatSubmit | react/app_11/my-react-app/src/components/pages/settings/index.tsx:29-34 | blank text does nothing; otherwise the trimmed text becomes the format, it is marked custom and no preset is highlighted |
| SettingsPage.SettingsPageState.ApplyDisabled | react/app_11/my-react-app/src/components/pages/settings/index.tsx:138 | Apply is disabled iff the custom text is whitespace only |
| Tally.AddTo | react/app_7/my-react-app/src/components/pages/reports/index.tsx:112-119 | adding to a key keeps the key order, appending the key when it was absent |
| Tally.AddToGet | react/app_7/my-react-app/src/components/pages/reports/index.tsx:112-119 | the key read afterwards holds its old value (or 0) plus the amount; every other key is unchanged |
| Tally.AddToIsSet | react/app_7/my-react-app/src/components/pages/reports/index.tsx:112-119 | the update equals the spread written out: read the key (or 0), add, write back |
| Tally.AddToSum | react/app_7/my-react-app/src/components/pages/reports/index.tsx:112-119 | the values grow by exactly the amount |
| Tally.AddToValid | react/app_7/my-react-app/src/components/pages/reports/index.tsx:112-119 | no key appears twice afterwards |
| Tally.TotalsGet | react/react19-example-web-vitals/src/pages/Reports.jsx:13-15 | reading a key of the running tally gives the sum of its amounts; keys never seen are absent |
| Tally.TotalsKeys | react/react19-example-web-vitals/src/pages/Reports.jsx:13-16 | each key appears once, in the order of its first occurrence |
| Tally.TotalsSum | react/react19-example-web-vitals/src/pages/Reports.jsx:13-16 | the values of the tally add up to the sum of all amounts |
| PopulationReport.Step | react/app_7/my-react-app/src/components/pages/reports/index.tsx:110-120 | a country without region or population leaves the object alone; otherwise its population is added to its region |
| PopulationReport.CalcIsTotals | react/app_7/my-react-app/src/components/pages/reports/index.tsx:105-121 | the reduce is the running tally of the counted (region, population) pairs |
| PopulationReport.CalcPopulationPerRegion | react/app_7/my-react-app/src/components/pages/reports/index.tsx:109-120 | the reduce over the countries; CalcIsTotals, RegionTotals, RegionOrder and PopulationPreserved state its keys, sums and order |
| PopulationReport.CountedPairsLast | react/app_7/my-react-app/src/components/pages/reports/index.tsx:109-120 | the last country contributes its pair after the others, if it is counted |
| PopulationReport.HasRegionLast | react/app_7/my-react-app/src/components/pages/reports/index.tsx:111 | a region has a counted country iff an earlier one or the last one is in it |
| PopulationReport.CountedRegionsIff | react/app_7/my-react-app/src/components/pages/reports/index.tsx:111 | a region is counted iff some counted country lies in it |
| PopulationReport.CountedSumFor | react/app_7/my-react-app/src/components/pages/reports/index.tsx:112-119 | the amounts paired with a region add up to that region's counted population |
| PopulationReport.CountedSumAll | react/app_7/my-react-app/src/components/pages/reports/index.tsx:112-119 | all paired amounts add up to the counted population |
| PopulationReport.RegionTotals | react/app_7/my-react-app/src/components/pages/reports/index.tsx:105-121 | every region with a counted country maps to its total population; no other key is present |
| PopulationReport.RegionOrder | react/app_7/my-react-app/src/components/pages/reports/index.tsx:105-121 | each region appears once, in the order its first counted country came |
| PopulationReport.PopulationPreserved | react/app_7/my-react-app/src/components/pages/reports/index.tsx:105-121 | the regions together hold the population of every counted country |
| PopulationReport.AdaptDataPieChart | react/app_7/my-react-app/src/components/pages/reports/index.tsx:123-127 | one slice per entry in entry order, named by the key and valued by the value; the slices add up to the values |
| PopulationReport.SliceValues | react/app_7/my-react-app/src/components/pages/reports/index.tsx:123-127 | a slice's value is the object's value under the slice's name |
| PopulationReport.PieChartOfCountries | react/app_7/my-react-app/src/components/pages/reports/index.tsx:105-127 | each slice of the chart is a counted region with its population, and the slices add up to the counted population |
| Users.JobsDistinct | react/react19-example-web-vitals/src/data/users.js:7 | the six job names differ |
| Users.AllUsers | react/react19-example-web-vitals/src/data/users.js:6-17 | 120 users; user i has id i+1, name "User <i+1>", job jobs[i mod 6] and a bio of 4(200 + 50(i mod 10)) characters |
| Users.MakeUser | react/react19-example-web-vitals/src/data/users.js:6-13 | the user at index i has a job from the list and a bio of 4(200 + 50(i mod 10)) characters |
| Users.BioRepeats | react/react19-example-web-vitals/src/data/users.js:10 | a bio is "Bio " repeated |
| Users.IdsIncreasing | react/react19-example-web-vitals/src/data/users.js:12 | ids grow with the index, so none repeats |
| Users.NamesDistinct | react/react19-example-web-vitals/src/data/users.js:13 | no two users share a name |
| Users.JobsOf | react/react19-example-web-vitals/src/data/users.js:14 | the job column, in user order |
| Users.JobCycle | react/react19-example-web-vitals/src/data/users.js:8 | the first n jobs follow the six-job cycle |
| Users.JobsOfUsers | react/react19-example-web-vitals/src/data/users.js:6-17 | the job column of the users is the six-job cycle of length 120 |
| Users.JobCycleBlock | react/react19-example-web-vitals/src/data/users.js:8 | six more users bring one more of each job |
| Users.JobsOnce | react/react19-example-web-vitals/src/data/users.js:7 | each job occurs once in the list |
| Users.JobCycleCount | react/react19-example-web-vitals/src/data/users.js:8 | m whole cycles hold each job m times |
| Users.TwentyPerJob | react/react19-example-web-vitals/src/data/users.js:6-8 | each of the six jobs is held by exactly 20 users |
| Users.OnlyListedJobs | react/react19-example-web-vitals/src/data/users.js:7-8 | no job outside the list occurs |
| Histograms.Ones | react/react19-example-web-vitals/src/pages/Reports.jsx:14-23 | every key is counted once |
| Histograms.OnesLast | react/react19-example-web-vitals/src/pages/Reports.jsx:13-15 | the last key contributes its one after the others |
| Histograms.OnesSumFor | react/react19-example-web-vitals/src/pages/Reports.jsx:14-23 | counting ones for a key gives its number of occurrences |
| Histograms.OnesSumAll | react/react19-example-web-vitals/src/pages/Reports.jsx:13-15 | all the ones add up to the number of keys |
| Histograms.CountsMeaning | react/react19-example-web-vitals/src/pages/Reports.jsx:12-16 | the counting map has each key once, in first-occurrence order, valued by its number of occurrences, summing to the number of keys |
| Histograms.CountsOf | react/react19-example-web-vitals/src/pages/Reports.jsx:12-16 | the counts the loop leaves behind; CountsMeaning states their keys, values and sum, and CountBy proves the loop equal to them |
| Histograms.CountBy | react/react19-example-web-vitals/src/pages/Reports.jsx:13-15 | the for-of loop leaves exactly the running tally of ones |
| Histograms.CategoriesOf | react/react19-example-web-vitals/src/pages/Reports.jsx:14 | the category column, in product order |
| Histograms.ToSlices | react/react19-example-web-vitals/src/pages/Reports.jsx:16 | one { name, value } row per map entry, in entry order, with the same total |
| Histograms.ProductsByCategory | react/react19-example-web-vitals/src/pages/Reports.jsx:11-17 | one slice per distinct category in first-occurrence order, valued by how many products have it; the slices add up to the number of products |
| Histograms.ToBars | react/react19-example-web-vitals/src/pages/Reports.jsx:25 | one { job, count } row per map entry, in entry order, with the same total |
| Histograms.UsersByJob | react/react19-example-web-vitals/src/pages/Reports.jsx:20-26 | one bar per distinct job in first-occurrence order, counting the users with it; the bars add up to the number of users |
| Histograms.JobCycleDistinct | react/react19-example-web-vitals/src/data/users.js:8 | from six users on, the distinct jobs are the six in list order |
| Histograms.UsersByJobOnFixture | react/react19-example-web-vitals/src/pages/Reports.jsx:20-26 | on the 120 generated users the chart shows the six jobs in list order with 20 users each |
| ShoppingCart.FindProduct | examples/Js-Refresh/typescript/src/1-interface-basics/live-example.ts:75 | a found product is in the catalogue with that id; nothing is found iff no product has it |
| ShoppingCart.ItemIndex | examples/Js-Refresh/typescript/src/1-interface-basics/live-example.ts:87-89 | the first cart entry for the product id, or none iff there is no entry for it |
| ShoppingCart.AddedKeepsInvariant | examples/Js-Refresh/typescript/src/1-interface-basics/live-example.ts:74-100 | adding keeps at most one entry per product id, each holding an in-stock catalogue product |
| ShoppingCart.Added | examples/Js-Refresh/typescript/src/1-interface-basics/live-example.ts:74-100 | the cart after `addToCart`; AddedKeepsInvariant, RejectedLeavesCart and ExistingGrows state its cases, and Cart.AddToCart is proved against it |
| ShoppingCart.RejectedLeavesCart | examples/Js-Refresh/typescript/src/1-interface-basics/live-example.ts:75-85 | an unknown id or an out-of-stock product leaves the cart as it was |
| ShoppingCart.ExistingGrows | examples/Js-Refresh/typescript/src/1-interface-basics/live-example.ts:87-93 | a product already in the cart only grows its quantity; nothing is added or reordered |
| ShoppingCart.Cart.constructor | examples/Js-Refresh/typescript/src/1-interface-basics/live-example.ts:71 | the cart starts empty |
| ShoppingCart.Cart.AddToCart | examples/Js-Refresh/typescript/src/1-interface-basics/live-example.ts:74-100 | the cart becomes the added cart, grown in place or pushed at the end, and keeps its invariant |
| ShoppingCart.ShoppingActions | examples/Js-Refresh/typescript/src/1-interface-basics/live-example.ts:169-172 | after the four demo calls the cart holds three mice and one keyboard; the out-of-stock product is not in it |
| ShoppingCart.ProductsByCategory | examples/Js-Refresh/typescript/src/1-interface-basics/live-example.ts:131-133 | exactly the catalogue products of that category, in catalogue order |
| ShoppingCart.AvailableProducts | examples/Js-Refresh/typescript/src/1-interface-basics/live-example.ts:136-138 | exactly the in-stock catalogue products, in catalogue order |
| ShoppingCart.CatalogueQueries | examples/Js-Refresh/typescript/src/1-interface-basics/live-example.ts:131-138 | the electronics are products 1 and 2, and products 1, 2 and 4 are available |
| LibraryBooks.FindBookByTitle | examples/Js-Refresh/typescript/src/solutions/1-interface-basics-solution.ts:145-149 | nothing is found iff no title matches ignoring case; a found book is in the list and matches |
| LibraryBooks.FindsFirstMatch | examples/Js-Refresh/typescript/src/solutions/1-interface-basics-solution.ts:146-148 | the search returns the first matching book |
| LibraryBooks.GetAvailableBooks | examples/Js-Refresh/typescript/src/solutions/1-interface-basics-solution.ts:154-156 | exactly the available books, in order |
| LibraryBooks.DisplayBookInfo | examples/Js-Refresh/typescript/src/solutions/1-interface-basics-solution.ts:75-77 | the text is "<title> by <author> (<year>) - <pages> pages": it starts with the title part, ends with the pages part, and what lies between is the year |
| LibraryBooks.CreateBookLoan | examples/Js-Refresh/typescript/src/solutions/1-interface-basics-solution.ts:82-98 | the loan carries the given book and member, is due the given number of days after checkout, and has no return date |
| LibraryBooks.LengthsDiffer | examples/Js-Refresh/typescript/src/solutions/1-interface-basics-solution.ts:147 | a title of another length never matches |
| LibraryBooks.SkipsNonMatching | examples/Js-Refresh/typescript/src/solutions/1-interface-basics-solution.ts:146-148 | a book that does not match is passed over |
| LibraryBooks.SearchFindsOrwell | examples/Js-Refresh/typescript/src/solutions/1-interface-basics-solution.ts:208 | searching the library for "1984" finds George Orwell's book |
| LibraryBooks.ThreeAvailable | examples/Js-Refresh/typescript/src/solutions/1-interface-basics-solution.ts:218 | three of the four books are available, all but the checked-out one |
| InterfaceMerging.FormatBoolean | examples/Js-Refresh/typescript/src/solutions/2-interface-merging-solution.ts:81-83 | "Boolean: " followed by "Yes" iff the value is true and "No" iff it is false |
| InterfaceMerging.StoreGet | examples/Js-Refresh/typescript/src/solutions/2-interface-merging-solution.ts:203-210 | a stored key gives its value; a missing key gives the default, itself possibly undefined |
| InterfaceMerging.DefaultOnlyWhenMissing | examples/Js-Refresh/typescript/src/solutions/2-interface-merging-solution.ts:203-210 | a default never hides a stored value |
| InterfaceMerging.StoreDemo | examples/Js-Refresh/typescript/src/solutions/2-interface-merging-solution.ts:196-219 | "username" gives "john_doe"; "email" is missing, undefined without a default and the default with one |
| InterfaceMerging.GameCharacter.constructor | examples/Js-Refresh/typescript/src/solutions/2-interface-merging-solution.ts:246-254 | Aragorn, level 15, health 100, mana 50, strength 85, three items and 250 gold |
| InterfaceMerging.GameCharacter.Attack | examples/Js-Refresh/typescript/src/solutions/2-interface-merging-solution.ts:255-260 | an attack costs exactly 5 mana, without a lower bound; nothing else changes |
| InterfaceMerging.GameCharacter.Heal | examples/Js-Refresh/typescript/src/solutions/2-interface-merging-solution.ts:262-267 | health grows by the amount but is capped at 100; nothing else changes |
| InterfaceMerging.GameCharacter.AddItem | examples/Js-Refresh/typescript/src/solutions/2-interface-merging-solution.ts:269-271 | the item goes at the end of the inventory; nothing else changes |
| InterfaceMerging.Min | examples/Js-Refresh/typescript/src/solutions/2-interface-merging-solution.ts:263 | the smaller of the two arguments |
| InterfaceMerging.Actions | examples/Js-Refresh/typescript/src/solutions/2-interface-merging-solution.ts:288-290 | after attacking, healing 20 and picking up the ring: mana 45, health 100, four items ending with "Magic Ring" |
| PluginApp.LevelTags | examples/Js-Refresh/typescript/src/2-interface-merging/live-example.ts:141 | the level tags are INFO, WARN and ERROR |
| PluginApp.LogEntry | examples/Js-Refresh/typescript/src/2-interface-merging/live-example.ts:139-144 | "[<timestamp>] [<LEVEL>] " followed by exactly the message |
| PluginApp.LogEntryKeepsMessage | examples/Js-Refresh/typescript/src/2-interface-merging/live-example.ts:141 | two entries of the same time and level are equal only for equal messages |
| PluginApp.LastFive | examples/Js-Refresh/typescript/src/2-interface-merging/live-example.ts:164 | the last five events, or all of them when there are fewer |
| PluginApp.Application.constructor | examples/Js-Refresh/typescript/src/2-interface-merging/live-example.ts:88-104 | MyAwesomeApp 1.0.0, nobody logged in, no logs, no events, zero views and visitors |
| PluginApp.Application.Log | examples/Js-Refresh/typescript/src/2-interface-merging/live-example.ts:139-144 | exactly one entry is appended |
| PluginApp.Application.Start | examples/Js-Refresh/typescript/src/2-interface-merging/live-example.ts:107-110 | the start is logged |
| PluginApp.Application.TrackEvent | examples/Js-Refresh/typescript/src/2-interface-merging/live-example.ts:151-157 | one event is recorded and one entry logged |
| PluginApp.Application.Login | examples/Js-Refresh/typescript/src/2-interface-merging/live-example.ts:113-127 | succeeds iff both fields are non-empty; then the user is set, the login logged and tracked; otherwise "Login failed" is logged at error level |
| PluginApp.Application.Logout | examples/Js-Refresh/typescript/src/2-interface-merging/live-example.ts:129-136 | without a user nothing happens; otherwise the user is cleared, the logout logged and tracked |
| PluginApp.Application.GetLogs | examples/Js-Refresh/typescript/src/2-interface-merging/live-example.ts:146-148 | the log entries, in order |
| PluginApp.Application.GetAnalytics | examples/Js-Refresh/typescript/src/2-interface-merging/live-example.ts:159-166 | the counters, the number of events and the five most recent events |
| PluginApp.RunExample | examples/Js-Refresh/typescript/src/2-interface-merging/live-example.ts:224-254 | the demo run records four events before the logout, eight log lines and five events after it, and ends logged out |
| PluginApp.StartAndLogIn | examples/Js-Refresh/typescript/src/2-interface-merging/live-example.ts:224-231 | after the start and the john_doe login one login event is recorded, three log lines are written and the second one announces the login |
| ExportsExample.Greet | examples/Js-Refresh/typescript/src/3-exports/example.ts:10-12 | the greeting is "Hello, ", then the name unchanged, then "!" |
| ExportsExample.GreetInjective | examples/Js-Refresh/typescript/src/3-exports/example.ts:10-12 | two names with the same greeting are the same name |
| ExportsExample.ValidateEmail | examples/Js-Refresh/typescript/src/3-exports/example.ts:34-36 | an address is accepted iff it contains '@' |
| ExportsExample.ThemeManager.constructor | examples/Js-Refresh/typescript/src/3-exports/example.ts:97-103 | a new manager holds the default theme "light", one of the listed themes |
| ExportsExample.ThemeManager.SetTheme | examples/Js-Refresh/typescript/src/3-exports/example.ts:105-110 | a listed theme becomes current; any other theme leaves the current one unchanged; the theme stays listed |
| ExportsExample.ThemeManager.GetTheme | examples/Js-Refresh/typescript/src/3-exports/example.ts:112-114 | returns the current theme, which is always one of "light", "dark" and "auto" |
| ExportsExample.ThemeDemo | examples/Js-Refresh/typescript/src/3-exports/example.ts:147-150 | after setting "dark" and then an unlisted theme, the manager reports "dark" |
| StringUtils.Capitalize | examples/Js-Refresh/typescript/src/3-exports/live-example/utils.ts:12-14 | same length; the first character upper-cased and the rest unchanged |
| StringUtils.SliceTo | examples/Js-Refresh/typescript/src/3-exports/live-example/utils.ts:18 | slicing to a non-negative end keeps that many characters at most; a negative end counts back from the end |
| StringUtils.Truncate | examples/Js-Refresh/typescript/src/3-exports/live-example/utils.ts:16-19 | a string that fits is returned as is; a longer one is cut to the limit and gets "...", so at most three characters over |
| StringUtils.Reverse | examples/Js-Refresh/typescript/src/3-exports/live-example/utils.ts:30 | same length, character i is character n-1-i of the input |
| StringUtils.ReverseInvolution | examples/Js-Refresh/typescript/src/3-exports/live-example/utils.ts:30 | reversing twice gives back the input |
| StringUtils.Cleaned | examples/Js-Refresh/typescript/src/3-exports/live-example/utils.ts:32 | what survives the clean-up is only lower-case letters and digits |
| StringUtils.IsPalindrome | examples/Js-Refresh/typescript/src/3-exports/live-example/utils.ts:31-34 | true iff the cleaned text reads the same from both ends |
| StringUtils.PalindromeIgnoresCase | examples/Js-Refresh/typescript/src/3-exports/live-example/utils.ts:31-34 | lower-casing the text first does not change the answer |
| StringUtils.PalindromeOfReverse | examples/Js-Refresh/typescript/src/3-exports/live-example/utils.ts:30-34 | a clean text and its reverse are palindromes together |
| StringUtils.CleanedOfClean | examples/Js-Refresh/typescript/src/3-exports/live-example/utils.ts:32 | text already made of lower-case letters and digits is left as it is |
| StringUtils.Racecar | examples/Js-Refresh/typescript/src/3-exports/live-example/main.ts:73 | "racecar" is a palindrome |
| StringUtils.SplitWs | examples/Js-Refresh/typescript/src/3-exports/live-example/utils.ts:35 | splitting on whitespace runs gives at least one piece and no piece holds whitespace |
| StringUtils.SplitCount | examples/Js-Refresh/typescript/src/3-exports/live-example/utils.ts:35 | with no whitespace at the end, the pieces are the words counted by where they start, plus one empty piece when the text is empty or starts with whitespace |
| StringUtils.SplitKeepsText | examples/Js-Refresh/typescript/src/3-exports/live-example/utils.ts:35 | the pieces put together are the text with its whitespace removed |
| StringUtils.WordCount | examples/Js-Refresh/typescript/src/3-exports/live-example/utils.ts:35 | the count is at least one |
| StringUtils.WordCountIsTokenCount | examples/Js-Refresh/typescript/src/3-exports/live-example/utils.ts:35 | for a non-blank text, the count is the number of positions where a word starts: a non-whitespace character at the start or after whitespace |
| StringUtils.BlankCountsOne | examples/Js-Refresh/typescript/src/3-exports/live-example/utils.ts:35 | an empty or all-whitespace string counts one word |
| StringUtils.PiecesNonEmpty | examples/Js-Refresh/typescript/src/3-exports/live-example/utils.ts:35 | without whitespace at the ends, no piece of the split is empty |
| StringUtils.WordsAreWords | examples/Js-Refresh/typescript/src/3-exports/live-example/utils.ts:35 | after trimming a non-blank string, every counted word is non-empty |
| UserModule.CreateUser | examples/Js-Refresh/typescript/src/3-exports/live-example/user.ts:12-25 | username and email are copied, a missing role becomes "user", a given role is kept, the id is below 10000 |
| UserModule.IsAdminIff | examples/Js-Refresh/typescript/src/3-exports/live-example/user.ts:27-29 | a user is an admin iff the role is the admin role |
| UserModule.DefaultUserIsNotAdmin | examples/Js-Refresh/typescript/src/3-exports/live-example/main.ts:54-60 | a user created without a role is not an admin |
| UserModule.IndexOfChar | examples/Js-Refresh/typescript/src/3-exports/live-example/user.ts:31-33 | the index found holds the character and no earlier index does; none found means the character is absent |
| UserModule.ValidateEmail | examples/Js-Refresh/typescript/src/3-exports/live-example/user.ts:31-33 | the scan accepts exactly the strings the regular expression matches: part, '@', part, '.', part, with no whitespace or '@' in a part |
| UserModule.MatchedChars | examples/Js-Refresh/typescript/src/3-exports/live-example/user.ts:31-33 | in a matched string every character except the '@' and the chosen '.' is neither whitespace nor '@' |
| UserModule.ScanSound | examples/Js-Refresh/typescript/src/3-exports/live-example/user.ts:31-33 | a string the scan accepts matches the regular expression |
| UserModule.ScanComplete | examples/Js-Refresh/typescript/src/3-exports/live-example/user.ts:31-33 | a string the regular expression matches is accepted by the scan |
| UserModule.DemoEmailValid | examples/Js-Refresh/typescript/src/3-exports/live-example/main.ts:59 | "test@example.com" is accepted |
| UserModule.TwoAtsRefused | examples/Js-Refresh/typescript/src/3-exports/live-example/user.ts:31-33 | an address with two '@' is refused |
| ProductModule.CreateProduct | examples/Js-Refresh/typescript/src/3-exports/live-example/product.ts:11-34 | title, price and category are copied, the product is in stock, its id is below 10000 and its category is listed |
| ProductModule.IsExpensive | examples/Js-Refresh/typescript/src/3-exports/live-example/product.ts:41-43 | a product is expensive iff it costs more than 100 dollars |
| ProductModule.CategoriesDistinct | examples/Js-Refresh/typescript/src/3-exports/live-example/product.ts:11-17 | five categories, none listed twice |
| ProductModule.DemoProducts | examples/Js-Refresh/typescript/src/3-exports/live-example/main.ts:10-33 | the 2499-dollar laptop is expensive and the 45-dollar handbook is not |
| GenericMerge.FirstKeyNotInRest | examples/Js-Refresh/typescript/src/5-generics/ex_2.ts:16 | in an object with distinct keys the first key does not recur |
| GenericMerge.SpreadGet | examples/Js-Refresh/typescript/src/5-generics/ex_2.ts:16 | after spreading, a spread key holds the spread value and every other key its old value |
| GenericMerge.Spread | examples/Js-Refresh/typescript/src/5-generics/ex_2.ts:16 | spreading entries into an object; SpreadGet and SpreadKeepsOrder state the values and the key order |
| GenericMerge.SpreadKeepsOrder | examples/Js-Refresh/typescript/src/5-generics/ex_2.ts:16 | spreading keeps keys distinct and does not move a key that was already there |
| GenericMerge.MergeGet | examples/Js-Refresh/typescript/src/5-generics/ex_2.ts:15-17 | on a shared key the second object wins; a key of the first only keeps its value |
| GenericMerge.MergeGenericObjects | examples/Js-Refresh/typescript/src/5-generics/ex_2.ts:15-17 | `{ ...obj1, ...obj2 }`; MergeGet, MergeKeys and MergeOrder state the values, the key union and the order |
| GenericMerge.MergeKeys | examples/Js-Refresh/typescript/src/5-generics/ex_2.ts:15-17 | the merged keys are exactly the keys of either object, none twice |
| GenericMerge.MergeOrder | examples/Js-Refresh/typescript/src/5-generics/ex_2.ts:15-17 | the first object's keys come first, in their order |
| GenericMerge.SpreadIntoEmpty | examples/Js-Refresh/typescript/src/5-generics/ex_2.ts:16 | spreading an object into {} copies it |
| GenericMerge.SpreadAppends | examples/Js-Refresh/typescript/src/5-generics/ex_2.ts:16 | spreading entries with new keys appends them in order |
| GenericMerge.SetAppends | examples/Js-Refresh/typescript/src/5-generics/ex_2.ts:16 | assigning a missing key appends it at the end |
| GenericMerge.CompaniesMerged | examples/Js-Refresh/typescript/src/5-generics/ex_2.ts:3-17 | merging the two companies gives the second one's name and the first one's 150 employees |
| ScanSearch.FilterIgnoringCase | examples/Js-Refresh/typescript/src/keyof.ts:40-41 | throws iff some item's field is not a string; otherwise keeps, in order, the items whose field equals the value ignoring case |
| ScanSearch.SearchScan | examples/Js-Refresh/typescript/src/keyof.ts:29-44 | a non-array gives undefined; a number keeps the items with that number; a boolean keeps nothing; a string throws iff some field is not a string |
| ScanSearch.BooleanSearchFindsNothing | examples/Js-Refresh/typescript/src/keyof.ts:28-39 | the search for isHandled true finds nothing, since that branch returns nothing |
| ScanSearch.SkipsOtherString | examples/Js-Refresh/typescript/src/keyof.ts:40-41 | a leading item whose string field cannot match is dropped |
| ScanSearch.UnknownScannerFindsNothing | examples/Js-Refresh/typescript/src/keyof.ts:9-45 | searching userScannerId for "aa" finds nothing |
| ScanSearch.StringOnNumberThrows | examples/Js-Refresh/typescript/src/keyof.ts:40-41 | searching a string on the numeric field throws |
| ScanSearch.SearchScan2 | examples/Js-Refresh/typescript/src/keyof.ts:49-63 | keeps, in order, exactly the items whose field matches: ignoring case for two strings, strictly otherwise; each kept item as often as in the input |
| ScanSearch.SearchesAgreeOnStrings | examples/Js-Refresh/typescript/src/keyof.ts:29-63 | for a string value, when searchScan does not throw it returns what searchScan2 returns |
| ScanPlayground.GetScanResultStats | examples/Js-Refresh/typescript-playground/2/src/keyof.ts:35-40 | a missing scan gives undefined; a present one gives its field, never undefined |
| ScanPlayground.FilterScans | examples/Js-Refresh/typescript-playground/2/src/keyof.ts:44-51 | keeps, in order, exactly the scans whose field is strictly equal to the value, each as often as in the input |
| ScanPlayground.UnknownScannerFiltersNothing | examples/Js-Refresh/typescript-playground/2/src/keyof.ts:18-53 | filtering userScannerId by "aa" keeps nothing |
| ScanPlayground.OneVulnerabilityKeepsBoth | examples/Js-Refresh/typescript-playground/2/src/keyof.ts:18-54 | filtering by one vulnerability keeps both samples |
| ScanPlayground.SearchScan | examples/Js-Refresh/typescript-playground/2/src/keyof.ts:58-71 | a non-array gives undefined; a number keeps the strictly equal scans; a string throws iff some field is not a string |
| ScanPlayground.SameAsFirstSearch | examples/Js-Refresh/typescript-playground/2/src/keyof.ts:58-71 | on strings and numbers this search gives what the first exercise's search gives |
| ScanPlayground.NumericIdFindsNothing | examples/Js-Refresh/typescript-playground/2/src/keyof.ts:73 | searching id for a number finds nothing, since ids are strings |

## Left out

- Rendering: JSX, component trees, styling and routing. Cell colours and the sine-wave visualisation data are left out too.
- React's hooks: the scheduling semantics of `useTransition`, `useDeferredValue` and `useOptimistic`, including the rollback of an optimistic entry when saving fails. Only the updaters, predicates and handlers are modelled.
- Timers: `delay`, `setTimeout`, `requestAnimationFrame` and `setInterval`. Reading `performance.now()` becomes a parameter, and the busy-wait loops are no-ops because they only burn time.
- Worker threading and `postMessage` delivery: messages are values handed to the handlers in the order given.
- Network, storage and console output: the countries service and the thunk bodies are left out, apart from their error mapping. So are the API routes and every `console.log`. The plugin `initialize` hooks only print, so they are left out.
- Floating point: the sum `performHeavyComputation` accumulates (its text is a parameter), every `toFixed` except the one-decimal rating, cart `calculateTotal`, `formatPrice`, `getTax`, `MathUtils` and the number branch of the formatter. Prices are integer cents.
- Worker.CalculateFibonacci: the result is an exact integer, while JavaScript computes it in doubles, which lose precision beyond 2^53 (from n = 79 on).
- Worker.PerformHeavyComputation: the progress percentage is the exact floor of 100i / iterations; the double product `(i / iterations) * 100` can round just below an integer and report one less.
- Random draws: each `Math.random()` value is a parameter k / 2^53. Prices, ratings and in-stock flags are computed from it exactly on that rational, ignoring the rounding of the double product `Math.random() * n`.
- Locale and clock: `localeCompare` name sorts, `toLocaleDateString`, and the utilities' `formatDate`. `Date` objects are given as year, month and day; `Date.now` ids and ISO timestamps are parameters.
- `generateId` of the utilities module: a base-36 rendering of a random double.
- Unicode: case mapping and `\s` cover ASCII only.
- `Object.entries` order: the model keeps insertion order. JavaScript lists integer-like keys first, which none of the modelled keys are.
- `DataStore` lookups: JavaScript prototype keys are not modelled.
- ShoppingCart: the catalogue products' ratings are not modelled, since nothing reads them.
- Input objects are values, so the merge and the reducers cannot modify their inputs; aliasing is not modelled.
- UseOptimistic.LikeButton.HandleLike: a press and its `setLikes(likes + change)` after the one-second delay are one step, so each press is assumed to settle before the next. In the program the flag flips at once while the count waits, and the delayed update uses the count read at the press: presses at 0 ms and 200 ms settle at 43 and then 41 likes, not liked, which the model's invariant excludes.
- UseOptimistic.TodoList.TodoSaved and UseOptimistic.MessageList.MessageSent: the same assumption holds for submissions. The single saving or sending slot cannot hold two overlapping saves, so the race between two `setTodos([...todos, newTodo])` or `setMessages([...messages, sentMessage])` calls that read the same old list is not modelled.
- ExportsExample.ThemeDemo: goes beyond the source's demo, which sets only "dark", by also trying an unknown theme afterwards.

## Findings

| source | as written | input that shows it | evidently intended | confidence | as-written member | corrected member |
|---|---|---|---|---|---|---|
| react/app_13/src/components/features/8-web-workers/Example.tsx:175-184 | each worker request wraps the handler that is current at the time, so the timing wrappers stack; the earliest wrapper writes the elapsed time last | a request at 0 ms, a second at 100 ms and a reply at 110 ms report 110 ms | the reply is timed from the latest request, 10 ms | not executed | WebWorkersPage.SecondRequestTimedFromFirst | WebWorkersPage.WorkerPanel.CalculateWithWorkerTimed |
| react/app_13/src/components/features/5-use-transition/Exercise.tsx:191,223-224 | the product list on screen starts as the whole catalogue while the price cap starts at 500, but generated prices reach 509 | a draw that gives a price of 509: that product is shown at start, although the same filters hide it after any change | the initial list is the catalogue filtered by the initial filters | not executed | TransitionExercise.ProductFilterPanel.AsWritten | TransitionExercise.ProductFilterPanel.constructor |
