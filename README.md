# Semantic Flow scheduling and scoring core, in Dafny

Semantic Flow is a flashcard web app. The user is shown a concept and writes an English
sentence for it. A language-model judge scores the sentence from 0 to 10. The app then
schedules the card's next review, buckets cards by mastery, builds practice queues, and
keeps streaks and daily progress. The model covers the repository's deterministic core:

- **Scheduling** (`Evaluate`):
  - the three-band update of ease factor and interval (`calculateSIPUpdate`);
  - the due day;
  - the first-evaluation defaults;
  - the evaluation handler's rule that a judge failure is fatal and a storage failure is not.
- **Mastery buckets** (`SmartCards`, `VaultStats`, `VaultCards`, `Practice`, `TopicAccordion`): the 5 and 8 thresholds wherever they recur, including the 4.99 and 7.99 gaps of the range filters.
- **Practice queue** (`SmartCards`):
  - Fisher–Yates shuffle of a copy, with the random draws injected;
  - the review map;
  - the SmartCard list;
  - the limit;
  - the stats object.
- **Vault grouping** (`VaultCards`, `Practice`):
  - the band filters and the date orderings;
  - group-by-deck in first-seen order;
  - the flattening of practice rows.
- **Streak** (`Streak`):
  - the bounded backward day scan with its one-day grace step;
  - the daily-goal default;
  - `is_complete`;
  - the goal validation of `PUT`.
- **Auto-merge** (`GenerateDeck`):
  - keyword Jaccard similarity with the number-clash rule;
  - the best-match deck search;
  - the choice of the target deck.
- **Client state machines**:
  - the practice page: deck ordering, navigation, per-deck positions, daily progress and the transfer clamp (`HomePage`);
  - the flashcard: the idle/input/evaluating/result phases, the saved per-card results and the 32-bit daily-quote hash (`Flashcard`);
  - the review session (`ReviewPage`);
  - the topic accordion (`TopicAccordion`);
  - the upload form's anchor list, the merge and transfer target lists, and the rename guard (`DeckDialogs`).

Shared pieces live in two more modules:

- `Base` holds the records, JavaScript truthiness, and ECMAScript whitespace with `trim`.
- `Sorting` holds a stable sort by an integer key. It models `Array.prototype.sort` and the database `order by`, both of which are stable here.

Representation choices:

- Scores are exact reals.
- Ease factors are integer tenths: 25 stands for 2.5.
- Days are integer offsets from today.
- Everything outside the core is an argument of the operation that uses it: the store, the judge, `fetch`, `Math.random`, the clock and `localStorage`.

## Model

| member | source | states |
|---|---|---|
| Evaluate.ClampEase | src/app/api/evaluate/route.ts:27 | The clamped ease lies in [1.3, 3.0], equals the input inside that range and the nearer bound outside it. |
| Evaluate.RoundDiv | src/app/api/evaluate/route.ts:41 | `Math.round(n/d)` is the integer k with n/d - 1/2 < k <= n/d + 1/2, so halves round up. |
| Evaluate.SipUpdate | src/app/api/evaluate/route.ts:21-58 | The ease is in [1.3, 3.0], the state is never `new`, and a non-negative interval maps into [0, 365]. The state is `review` iff the score is at least 8, and the interval is 0 iff the score is below 5. |
| Evaluate.EaseStep | src/app/api/evaluate/route.ts:29-49 | The new ease is clamp(ease - 0.3), clamp(ease - 0.1) or clamp(ease + 0.1), according to the band. |
| Evaluate.FailIgnoresInterval | src/app/api/evaluate/route.ts:29-36 | Below 5 the result is (clamp(ease - 0.3), 0, learning), whatever the prior interval. |
| Evaluate.PartialShortens | src/app/api/evaluate/route.ts:37-46 | In [5, 8) the card stays in learning with an interval of 1 to 3 days, never longer than a positive prior interval. |
| Evaluate.PassGrows | src/app/api/evaluate/route.ts:47-57 | From 8 up the state is review, interval 0 becomes 1, and a positive interval never shrinks below the 365 cap. |
| Evaluate.Scenarios | src/app/api/evaluate/route.ts:190-194 | A first evaluation scoring 9 gives (2.6, 1, review); (2.6, 1) scoring 3 gives (2.3, 0, learning); (1.3, 10) scoring 6 gives (1.3, 3, learning). |
| Evaluate.History | src/app/api/evaluate/route.ts:140-194 | The schedule stored after a run of evaluations: none before the first one, and each evaluation applies the SIP update to the previous schedule (or to (2.5, 0) for the first). `StoreStepFollowsHistory` ties it to the rows the handler writes. |
| Evaluate.HistoryInvariant | src/app/api/evaluate/route.ts:140-194 | After any non-empty sequence of evaluations the stored state has ease in [1.3, 3.0], interval in [0, 365] and a state other than `new`. |
| Evaluate.NextReviewDay | src/app/api/evaluate/route.ts:149-155 | The due day is `interval` days ahead for a positive interval, otherwise 1 day ahead; it is always after today. |
| Evaluate.FieldsFor | src/app/api/evaluate/route.ts:148-168 | The written ease, interval and state are the schedule's. The due day is today + max(interval, 1), the review day is today, and the score, sentence, critique and gap analysis are the judge's and the user's. |
| Evaluate.StoreStep | src/app/api/evaluate/route.ts:128-252 | The status is `skipped_no_cardId` iff there is no card id, and no write is issued then or when the lookup threw (`exception`). An existing row is updated with the SIP update of its own ease and interval. A missing row is inserted from (2.5, 0). The status is `updated`/`update_failed` or `created`/`insert_failed` for a write that succeeded or returned an error, and `exception` for one that threw. |
| Evaluate.StoreStepFollowsHistory | src/app/api/evaluate/route.ts:140-194 | If the stored row holds the schedule left by the earlier evaluations (no row before the first), the row written for the next score holds `History` of the evaluations so far plus this one. |
| Evaluate.Post | src/app/api/evaluate/route.ts:60-260 | Each early failure returns its status (401, 500, 400) and writes nothing. A judge failure, or a score outside [0, 10], is fatal. Once the judge has answered, the response is a success carrying its evaluation, and its status tag and write are exactly those `StoreStep` states. |
| SmartCards.MasteryOf | src/app/api/cards/smart/route.ts:16-21 | null goes to `new`, below 5 to `red`, [5, 8) to `yellow`, and 8 or more to `green`, each as an iff. |
| SmartCards.MasteryMatchesSchedule | src/app/api/cards/smart/route.ts:16-21 | A score is red iff the SIP update resets the interval to 0, and green iff it puts the card in review. It is yellow iff the card stays in learning with a 1 to 3 day interval. |
| SmartCards.Partner | src/app/api/cards/smart/route.ts:27 | `floor(random * (i + 1))` lies in [0, i]. |
| SmartCards.SwapPermutes | src/app/api/cards/smart/route.ts:28 | One swap keeps the multiset of elements. |
| SmartCards.Partners | src/app/api/cards/smart/route.ts:26-27 | The partner drawn for each position is at most that position. |
| SmartCards.ShuffledFromPermutation | src/app/api/cards/smart/route.ts:26-29 | The sequence of swaps from position i down to 1 is a permutation. |
| SmartCards.Shuffle | src/app/api/cards/smart/route.ts:24-31 | The in-place loop over a copied array computes the specified Fisher–Yates result, and it is a permutation of the input (same length, same multiset). The input is a value and is left unchanged. |
| SmartCards.BuildReviewMap | src/app/api/cards/smart/route.ts:108-116 | The `forEach` loop builds exactly the map `ReviewIndex` specifies. |
| SmartCards.ReviewIndexLatest | src/app/api/cards/smart/route.ts:110-115 | A card is in the review map iff some review is for it, and then the map holds the last such review. |
| SmartCards.ToSmartCards | src/app/api/cards/smart/route.ts:119-136 | One SmartCard per deck card, in order. A reviewed card takes its score, mastery and due date from the review; any other card is `new` with null score and due date. |
| SmartCards.SliceEnd | src/app/api/cards/smart/route.ts:53-54 | The `slice(0, limit)` applied to the parsed limit keeps min(limit, n) cards. The limit defaults to 1000, NaN keeps none, and a negative limit counts from the back. |
| SmartCards.StatsPartition | src/app/api/cards/smart/route.ts:150-152 | The new, due and green counts add up to the total. |
| SmartCards.DueIsRedOrYellow | src/app/api/cards/smart/route.ts:151 | A card counts as due iff it is red or yellow. |
| SmartCards.Get | src/app/api/cards/smart/route.ts:33-164 | The failures return 401, 400, 404 or 500. On success the cards are the first `SliceEnd` of the shuffled SmartCards, drawn from them (sub-multiset). Total, due, new and returned are as specified. A failed review query is not fatal. |
| VaultStats.CountLevels | src/app/api/vault/stats/route.ts:33-48 | The loop's counters equal the number of non-null scores below 5, in [5, 8) and from 8, and the total is their sum. |
| VaultStats.BandsPartition | src/app/api/vault/stats/route.ts:37-56 | The three counts add up to the number of non-null scores; null scores are counted nowhere. |
| VaultStats.CountMonotone | src/app/api/vault/stats/route.ts:33-48 | Each counter only grows as more rows are seen. |
| VaultStats.BandsAreMastery | src/app/api/vault/stats/route.ts:41-47 | Critical, refining and mastered are exactly red, yellow and green. |
| VaultStats.Get | src/app/api/vault/stats/route.ts:18-58 | No session gives 401 and a query error 500. Otherwise the response holds the three counts, and the total equals the number of non-null scores. |
| VaultCards.ParseLevel | src/app/api/vault/cards/route.ts:20-25 | Only `critical`, `refining` and `mastered` are accepted, each as an iff. |
| VaultCards.RangeOf | src/app/api/vault/cards/route.ts:31-47 | Each band is an inclusive sub-range of [0, 10]. |
| VaultCards.LevelGaps | src/app/api/vault/cards/route.ts:31-47 | Scores strictly inside (4.99, 5) or (7.99, 8) match no level. |
| VaultCards.BandsDisjoint | src/app/api/vault/cards/route.ts:31-47 | No score lies in two bands. |
| VaultCards.BandsAgreeWithMastery | src/app/api/vault/cards/route.ts:31-47 | Away from the two gaps, a score in [0, 10] is in a band iff its mastery level is the band's colour. |
| VaultCards.Grouped | src/app/api/vault/cards/route.ts:97-128 | The `Map` the loop builds has distinct insertion-ordered keys, which are exactly the keys of its entries. |
| VaultCards.GroupByDeck | src/app/api/vault/cards/route.ts:97-130 | The loop's output is the values of `Grouped` in key order. |
| VaultCards.FirstAt | src/app/api/vault/cards/route.ts:112-118 | The first usable row of a deck, or -1 when there is none. |
| VaultCards.GroupContents | src/app/api/vault/cards/route.ts:107-127 | A deck has a group iff some usable row is for it. The group carries the deck id and the title of its first row, plus the cards of all its rows in input order. |
| VaultCards.NoCardsBeforeFirst | src/app/api/vault/cards/route.ts:107-127 | A deck with no usable row has no cards. |
| VaultCards.GroupOrder | src/app/api/vault/cards/route.ts:112-118 | Groups are ordered by the first appearance of their deck. |
| VaultCards.GroupSizesBound | src/app/api/vault/cards/route.ts:107-136 | The group sizes add up to the number of rows that have a card and a deck, which is at most the reported total. |
| VaultCards.AddRowSize | src/app/api/vault/cards/route.ts:107-127 | A usable row adds exactly one grouped card; a skipped row adds none. |
| VaultCards.SelectedRows | src/app/api/vault/cards/route.ts:70-73 | The queried rows are exactly the band's rows, each as often as in the input, with the latest review first. |
| VaultCards.Get | src/app/api/vault/cards/route.ts:17-137 | An invalid level gives 400 and a query error 500. On success the topics are the grouping of the band's rows, the total is their number, and the group sizes add up to at most the total. |
| Practice.RangeFor | src/app/api/vault/cards/practice/route.ts:38-46 | No filter for a falsy level. The three bands for their names, and [0, 10] for any other level. |
| Practice.RangeForAgreesWithVault | src/app/api/vault/cards/practice/route.ts:38-46 | For the three band names the filter is the grouping route's band. |
| Practice.SelectedRows | src/app/api/vault/cards/practice/route.ts:38-55 | The rows are exactly those passing the level and deck filters, each as often as in the input, with the oldest review first. |
| Practice.NoFilters | src/app/api/vault/cards/practice/route.ts:38-51 | Without level and deck every row is returned. |
| Practice.FilterKeepsAll | src/app/api/vault/cards/practice/route.ts:38-51 | A filter every row passes keeps the rows. |
| Practice.Flatten | src/app/api/vault/cards/practice/route.ts:68-77 | One card per row, in order, with the card's fields and the review's score. |
| Practice.Get | src/app/api/vault/cards/practice/route.ts:57-82 | A query error gives 500. Otherwise the response holds the flattened selected rows, one per passing row. |
| Streak.RunLength | src/app/api/vault/streak/route.ts:48-69 | A run never exceeds its day budget. |
| Streak.RunLengthIsRun | src/app/api/vault/streak/route.ts:59-68 | The days of a run are active, and a run stopped before its budget ends on an inactive day. |
| Streak.StreakOf | src/app/api/vault/streak/route.ts:48 | The streak is at most 365. |
| Streak.CountStreak | src/app/api/vault/streak/route.ts:44-70 | The loop computes `StreakOf`, the run from today or, after the grace step, from yesterday. |
| Streak.ActiveToday | src/app/api/vault/streak/route.ts:59-62 | With activity today, the streak is the unbroken run of active days counted back from today. |
| Streak.InactiveToday | src/app/api/vault/streak/route.ts:63-68 | Without activity today, counting starts from yesterday, to the yesterday-ending run; the streak is 0 when yesterday is inactive too. |
| Streak.DailyGoal | src/app/api/vault/streak/route.ts:24 | A missing or zero goal reads as 20; any other stored goal is kept. |
| Streak.AcceptedGoalRange | src/app/api/vault/streak/route.ts:106-111 | PUT accepts a goal iff it is present and lies in [1, 100]. |
| Streak.StoredGoalReadBack | src/app/api/vault/streak/route.ts:106-122 | A goal PUT accepts is reported unchanged by GET: the default of 20 never replaces it. |
| Streak.Get | src/app/api/vault/streak/route.ts:17-80 | today_count is the count or 0, daily_goal is `DailyGoal`, and streak_days is `StreakOf` (at most 365). is_complete holds iff today_count >= daily_goal. |
| Streak.Put | src/app/api/vault/streak/route.ts:91-143 | A body that is not JSON, or is JSON null, is caught as a 500 "Internal server error". A missing goal, 0, a goal below 1 or above 100 gives 400, and an upsert error gives 500. Success holds exactly when none of these happens; the goal is then echoed and lies in [1, 100]. |
| GenerateDeck.Lower | src/app/api/generate-deck/route.ts:27-28 | Lower-casing maps character by character. |
| GenerateDeck.LowerIdempotent | src/app/api/generate-deck/route.ts:27-28 | Lower-casing twice is lower-casing once. |
| GenerateDeck.LeadingRun | src/app/api/generate-deck/route.ts:32 | The leading run is maximal: all its characters qualify and the next one does not. |
| GenerateDeck.RunsSplit | src/app/api/generate-deck/route.ts:32-33 | A separator splits the words: the words of x+c+y are those of x followed by those of y. |
| GenerateDeck.Jaccard | src/app/api/generate-deck/route.ts:38-55 | The ratio of intersection to union lies in [0, 1] and is 0 for two empty sets. It is 1 only for two equal non-empty sets. |
| GenerateDeck.Similarity | src/app/api/generate-deck/route.ts:26-56 | The similarity lies in [0, 1]. It is 0 when both keyword sets are empty, and 0 when both titles have numbers and share none. It is 1 only for equal keyword sets. |
| GenerateDeck.SimilaritySymmetric | src/app/api/generate-deck/route.ts:26-56 | The similarity is symmetric. |
| GenerateDeck.SimilarityIgnoresCase | src/app/api/generate-deck/route.ts:27-28 | Lower-casing either argument first changes nothing. |
| GenerateDeck.IgnoredWordNoEffect | src/app/api/generate-deck/route.ts:31-33 | Appending a stop word, or a one-character word without a digit, leaves the similarity unchanged. |
| GenerateDeck.DigitTokenMatters | src/app/api/generate-deck/route.ts:32-53 | A single digit is not a keyword yet still decides the number check: w ~ w+" "+d2 scores 1, w+" "+d1 ~ w+" "+d2 scores 0. |
| GenerateDeck.TaskOneTaskTwo | src/app/api/generate-deck/route.ts:44-53 | "task" against "task 2" scores 1; "task 1" against "task 2" scores 0. |
| GenerateDeck.PlainWord | src/app/api/generate-deck/route.ts:27-46 | A lower-case word of letters is its own single keyword and carries no numbers. |
| GenerateDeck.WordAndDigit | src/app/api/generate-deck/route.ts:27-46 | For "w d", the keywords are {w} and the numbers [d]. |
| GenerateDeck.BestIndex | src/app/api/generate-deck/route.ts:67-82 | The index kept by the scan is -1 iff no item reaches the threshold. Otherwise it reaches the threshold, has the highest score, and no earlier item has that score. |
| GenerateDeck.BestIndexUnique | src/app/api/generate-deck/route.ts:67-82 | Those properties determine the index: any index having them is `BestIndex`. |
| GenerateDeck.BestAbove | src/app/api/generate-deck/route.ts:67-82 | The loop, which replaces its best only on a strictly higher score at or above the threshold, computes `BestIndex`. |
| GenerateDeck.SimilarDeck | src/app/api/generate-deck/route.ts:59-83 | There is no similar deck iff every deck scores below 0.8 on max(topic similarity, title similarity). Otherwise it is the earliest deck of the highest score. |
| GenerateDeck.FindSimilarDeck | src/app/api/generate-deck/route.ts:59-83 | The method returns `SimilarDeck` of the user's decks, and none when their query failed. |
| GenerateDeck.MergeWhenSimilar | src/app/api/generate-deck/route.ts:148-155 | Auto-merge picks a deck exactly when there is no deck id, merging is not turned off, and some deck of the user's scores at least 0.8. |
| GenerateDeck.ChosenDeck | src/app/api/generate-deck/route.ts:127-160 | The target before any creation is the request's existing deck when a deck id is given, otherwise the auto-merge deck; a deck with an empty (falsy) id counts as none, so a new deck is created. |
| GenerateDeck.ResolveTarget | src/app/api/generate-deck/route.ts:127-156 | The lookup fails (404) exactly when a deck id is given and no deck comes back. Otherwise the target id is truthy exactly when `ChosenDeck` picks a deck, and it is then that deck's id and title. `mergedInto` is the title of the auto-merge deck. |
| GenerateDeck.Post | src/app/api/generate-deck/route.ts:86-218 | 401, 500 for an unreadable body, 400 for a blank topic, 500 for a generator failure, 404 for a missing explicit deck, 500 with the error's message (or Unknown) for a failed deck insert and 500 for a failed card insert. Success holds iff all of these pass. The cards then go to `ChosenDeck`, or to the created deck when there is none, with that deck's title. The count is the number of generated cards, and `mergedInto` is the title of the auto-merge deck whenever one was found, even when its empty id led to a new deck. |
| HomePage.IndexOf | src/app/page.tsx:129-130 | `indexOf` is the first position of the id, or -1 iff it is absent. |
| HomePage.SavedKey | src/app/page.tsx:128-136 | A deck's sort key is its saved index, or the length of the order iff it is unsaved. |
| HomePage.SavedOrderCompareIsKeyOrder | src/app/page.tsx:128-136 | The comparator's sign agrees with the key order (all three cases), so it is a consistent ordering. |
| HomePage.SavedOrderProperties | src/app/page.tsx:124-144 | The sorted decks are a permutation, with saved decks before unsaved ones in ascending saved index; unsaved decks keep their fetched order. |
| HomePage.ReorderedProperties | src/app/page.tsx:408-420 | Reordering is a permutation. Decks in the new order follow it, and decks missing from it come first. |
| HomePage.NextIndex | src/app/page.tsx:226-228 | Next moves one card on, and from the last card wraps to 0. |
| HomePage.NextTimesWraps | src/app/page.tsx:226-228 | k calls of the handler move k cards on modulo the deck size; n calls return to the start. |
| HomePage.NextPressesStop | src/components/Flashcard.tsx:419-428 | The card view's Next button is disabled from the last card on, so k presses from card i reach card min(i + k, n - 1) and never wrap to the first card. |
| HomePage.PrevIndex | src/app/page.tsx:230-232 | Previous at 0 does nothing; otherwise it moves one back. |
| HomePage.GoToIndex | src/app/page.tsx:526-539 | A jump is accepted iff 1 <= target <= length, and goes to target - 1. |
| HomePage.ClampAfterRemoval | src/app/page.tsx:395-397 | After a removal the index moves to new length - 1 iff it is past the end of a non-empty list. |
| HomePage.DisplayTotal | src/app/page.tsx:463-466 | The displayed total is max(completed, 10). |
| HomePage.Home.CurrentCard | src/app/page.tsx:73 | The current card exists iff the index is inside the list, and is the card at the index. |
| HomePage.Home.constructor | src/app/page.tsx:43-70 | The initial page state. |
| HomePage.Home.LoadPersisted | src/app/page.tsx:76-96 | Saved positions are taken as stored; saved daily progress only when it is from today. |
| HomePage.Home.ApplyDecks | src/app/page.tsx:122-144 | The fetched decks are applied in the saved order when there is one, and stay a permutation. |
| HomePage.Home.ReorderDecks | src/app/page.tsx:408-420 | The deck list is reordered by the new order and stays a permutation. |
| HomePage.Home.SelectDeck | src/app/page.tsx:154-183 | The position in the deck being left is saved when it has cards. The new deck opens at its saved position (as read before that save), or at 0 when that position is past the end or the fetch failed. |
| HomePage.Home.SubmitEvaluation | src/app/page.tsx:185-216 | Run to its end with no other event in between, only the first evaluation of a card raises the daily count and appends its id, and the count stays the list's length. |
| HomePage.Home.BeginEvaluation | src/app/page.tsx:185-200 | Nothing is sent without a current card. Otherwise the card's id and the daily progress of this render are captured, and nothing changes. |
| HomePage.Home.FinishEvaluation | src/app/page.tsx:201-209 | After the answer, the progress is `StaleFinish` of the captured progress: an evaluation of a card not counted there writes the captured progress plus that card, whatever the progress is now. |
| HomePage.OverlapLosesCompletion | src/app/page.tsx:201-209 | Two overlapping evaluations of two new cards, both started from the same progress, count one card: the last answer overwrites the other, and the first card is not recorded. |
| HomePage.OverlapCountsBoth | src/app/page.tsx:201-209 | When the progress read as each answer arrives is extended instead, both cards count, and the count stays the list's length. |
| HomePage.Home.CardChange | src/app/page.tsx:218-224 | The index moves, the card remounts, and the position is saved for the selected deck. |
| HomePage.Home.NextCard | src/app/page.tsx:226-228 | The index becomes `NextIndex` of the old one, the card remounts, and the position is saved for the selected deck; the decks, the selected deck, the cards and the daily progress are unchanged. |
| HomePage.Home.PrevCard | src/app/page.tsx:230-232 | At 0 the index, saved positions and remount key are unchanged. Otherwise the index goes back by one, the card remounts, and the position is saved for the selected deck. Either way the decks, the selected deck, the cards and the daily progress are unchanged. |
| HomePage.Home.GoTo | src/app/page.tsx:526-539 | An accepted jump moves to target - 1, remounts the card and saves the position for the selected deck. Any other target leaves the index, saved positions and remount key unchanged. Either way the decks, the selected deck, the cards and the daily progress are unchanged. |
| HomePage.Home.TransferCard | src/app/page.tsx:382-405 | On success the deck list is refetched (in the saved order when there is one, kept as it was when that fetch failed). The transferred card then leaves the list, and the index is clamped. On failure nothing changes. The selected deck, the remount key, the saved positions and the daily progress never change. |
| HomePage.Home.RemoveCard | src/app/page.tsx:392-397 | Every card but the transferred one stays, in order. The index is pulled back to the last card when it falls past the end of a non-empty list. Decks, selection, remount key and progress are unchanged. |
| Flashcard.ToInt32 | src/components/Flashcard.tsx:55-56 | The wrapped value is a signed 32-bit integer and equals the input within that range. |
| Flashcard.WrapInner | src/components/Flashcard.tsx:55-56 | Wrapping an intermediate value does not change the wrapped result. |
| Flashcard.Decimal | src/components/Flashcard.tsx:51 | The decimal rendering is a non-empty string of digits. |
| Flashcard.DecimalReadsBack | src/components/Flashcard.tsx:51 | The decimal rendering reads back as the number it renders. |
| Flashcard.DateString | src/components/Flashcard.tsx:51 | The date key is the three decimal renderings, year, month + 1 and day, joined by two dashes: it is made of digits and dashes only, and has the year's digits before its first dash. |
| Flashcard.DateHash | src/components/Flashcard.tsx:52-57 | The hash of the date string is a 32-bit integer and is 0 for the empty string. |
| Flashcard.QuoteIndexOf | src/components/Flashcard.tsx:58 | The quote index lies in [0, 10). |
| Flashcard.ShiftStep | src/components/Flashcard.tsx:55-56 | `((h << 5) - h + c) & itself` is int32(31*h + c). |
| Flashcard.DailyQuoteIndex | src/components/Flashcard.tsx:49-59 | For a local date, the loop computes `QuoteIndexOf` of that date's key. The index is a function of the date alone and lies below the quote count. |
| Flashcard.LoadEntry | src/components/Flashcard.tsx:195-199 | A card's saved state is found iff the storage parses and holds its id. |
| Flashcard.SaveEntry | src/components/Flashcard.tsx:218-231 | Saving adds exactly this card's key; an absent entry starts a new record and an unreadable one is left alone. |
| Flashcard.ClearEntry | src/components/Flashcard.tsx:234-245 | Clearing removes exactly this card's key. |
| Flashcard.LoadAfterSave | src/components/Flashcard.tsx:218-231 | What is saved is what loads back, unless the storage cannot be read. |
| Flashcard.LoadAfterClear | src/components/Flashcard.tsx:234-245 | After a clear the card has no saved state. |
| Flashcard.OtherCardsUntouched | src/components/Flashcard.tsx:218-245 | Saving or clearing one card leaves every other card's saved state unchanged. |
| Flashcard.FlashcardView.constructor | src/components/Flashcard.tsx:185-188 | The view starts idle and blank. |
| Flashcard.FlashcardView.Load | src/components/Flashcard.tsx:191-215 | A saved card enters `result` with its saved input and evaluation. Any other card enters `idle` with everything cleared; without a card nothing is reset. |
| Flashcard.FlashcardView.Remount | src/components/Flashcard.tsx:185-215 | A key change starts a new mount, idle and blank, then loads the card: its saved result when it has one, otherwise idle with everything cleared. |
| Flashcard.FlashcardView.Refresh | src/components/Flashcard.tsx:248-256 | Only this card's saved entry is deleted, and the view returns to idle, cleared. |
| Flashcard.FlashcardView.StartWriting | src/components/Flashcard.tsx:259-264 | The view enters `input` with input, evaluation and error cleared. |
| Flashcard.FlashcardView.Type | src/components/Flashcard.tsx:471 | Typing sets the input and nothing else. |
| Flashcard.FlashcardView.Back | src/components/Flashcard.tsx:482 | Back returns to idle and keeps everything else. |
| Flashcard.FlashcardView.BeginSubmit | src/components/Flashcard.tsx:267-271 | A submission starts iff the input is not blank and there is a card. It then enters `evaluating` with the error cleared, and captures the card, the input and the current mount. Blank input or no card changes nothing. |
| Flashcard.FlashcardView.FinishSubmit | src/components/Flashcard.tsx:273-288 | An evaluation is saved under the captured card, even when the view has been remounted since. Only the mount that started the submission shows the outcome: `result` with the evaluation, or `input` with the message of a null result or a thrown error. A remounted view is left as it is, and nothing is saved on failure. |
| Flashcard.SwitchDuringEvaluation | src/components/Flashcard.tsx:267-288 | When the card changes while an evaluation is pending, the new card is shown idle and blank, and the old card's result is saved for later. |
| ReviewPage.NextOf | src/app/vault/review/page.tsx:83-93 | Next always counts one more practised card. At the last index, or with a single card, it completes the session in place; otherwise it moves one on. |
| ReviewPage.PrevOf | src/app/vault/review/page.tsx:95-100 | Previous moves back only from an index above 0. |
| ReviewPage.RestartOf | src/app/vault/review/page.tsx:139-145 | Restart resets completion, the index and the practised count. |
| ReviewPage.WalkThrough | src/app/vault/review/page.tsx:83-93 | From the start, n calls of the Next handler on n cards visit each index in turn. The n-th call completes the session having practised n cards. Every one of these calls is enabled by the corrected button `SessionNextEnabled`. |
| ReviewPage.CompletionUnreachable | src/app/vault/review/page.tsx:83-93 | With the card view's buttons as written (Next disabled from the last card on, Previous on the first), no run of presses completes a session. |
| ReviewPage.LastCardNextIgnored | src/components/Flashcard.tsx:593-599 | On two cards, the second press of Next is ignored: the session stays on the last card, incomplete, with one card practised. |
| ReviewPage.CorrectedWalkCompletes | src/app/vault/review/page.tsx:83-93 | With Next enabled on the last card as well, k presses from the start are k calls of the handler, and n presses complete the session having practised all n cards. |
| ReviewPage.NavigationKeepsIndex | src/app/vault/review/page.tsx:83-145 | Next, Previous and Restart keep the index on a card. |
| ReviewPage.BackTarget | src/app/vault/review/page.tsx:129-137 | Back goes to router.back for a card id, else to /vault/{level} for a level, else to /vault. |
| ReviewPage.FetchUrl | src/app/vault/review/page.tsx:43-54 | A card id selects the single-card endpoint. Otherwise the practice endpoint is used, with the level and deckId params present, in that order. |
| ReviewPage.ReviewSession.CurrentCard | src/app/vault/review/page.tsx:30 | The current card exists iff the index is inside the list. |
| ReviewPage.ReviewSession.constructor | src/app/vault/review/page.tsx:23-28 | The session starts loading, empty, at index 0. |
| ReviewPage.ReviewSession.Fetched | src/app/vault/review/page.tsx:56-80 | A successful single-card answer replaces the list by that card, and a successful list answer by the list. Anything else keeps the list; loading ends and the index is not reset. |
| ReviewPage.ReviewSession.Next | src/app/vault/review/page.tsx:83-93 | The session moves as `NextOf`. |
| ReviewPage.ReviewSession.Prev | src/app/vault/review/page.tsx:95-100 | The session moves as `PrevOf`. |
| ReviewPage.ReviewSession.Restart | src/app/vault/review/page.tsx:139-145 | The session moves as `RestartOf`. |
| TopicAccordion.Toggled | src/components/TopicAccordion.tsx:31-39 | Toggling flips the deck's membership and leaves every other deck's as it was. |
| TopicAccordion.ToggleTwice | src/components/TopicAccordion.tsx:33-37 | Toggling the same deck twice restores the set. |
| TopicAccordion.TogglesCommute | src/components/TopicAccordion.tsx:31-39 | Toggles of two decks commute. |
| TopicAccordion.Accordion.Toggle | src/components/TopicAccordion.tsx:31-39 | The expanded set becomes `Toggled` of the old one, built on a copy. |
| TopicAccordion.ScoreColor | src/components/TopicAccordion.tsx:42-46 | Red iff below 5, amber iff in [5, 8), and emerald iff 8 or more. |
| TopicAccordion.ScoreColorIsMastery | src/components/TopicAccordion.tsx:42-46 | The badge colours are the mastery buckets. |
| TopicAccordion.PreviewText | src/components/TopicAccordion.tsx:49-55 | A first anchor over 50 characters is cut to 50 plus '...', and a shorter one is shown as is. With no anchors the preview is the first 30 characters of the concept plus '...'. It is never over 53 characters. |
| DeckDialogs.TargetDeck | src/components/GenerateDeckDialog.tsx:205 | The chosen deck, or the dialog's deck when none is chosen. |
| DeckDialogs.RemoveAt | src/components/GenerateDeckDialog.tsx:194 | Removing deletes the entry at that index only and keeps the others in order. |
| DeckDialogs.UploadedAnchors | src/components/GenerateDeckDialog.tsx:206-212 | Past the guard, the uploaded anchors are non-empty and all have non-blank text. |
| DeckDialogs.UploadForm.constructor | src/components/GenerateDeckDialog.tsx:174-180 | The form starts on the dialog's deck, with the two empty Formal and Academic rows. |
| DeckDialogs.UploadForm.AddAnchor | src/components/GenerateDeckDialog.tsx:188-190 | Adding appends one empty Neutral row, and the list stays non-empty. |
| DeckDialogs.UploadForm.RemoveAnchor | src/components/GenerateDeckDialog.tsx:192-196 | Only the entry at the index is removed, and only when there is more than one, so the list is never empty. |
| DeckDialogs.UploadForm.ChangeAnchor | src/components/GenerateDeckDialog.tsx:198-202 | Only the named field of the entry at the index changes. |
| DeckDialogs.UploadForm.Upload | src/components/GenerateDeckDialog.tsx:204-226 | The upload is sent iff there is a target deck, a non-blank concept and a non-blank anchor. It carries the non-blank anchors, and success resets the form to the two initial rows and closes it. |
| DeckDialogs.AvailableDecks | src/components/GenerateDeckDialog.tsx:382 | The target list holds every deck except the excluded one, each as often as in the deck list; the transfer dialog's list is the same filter. |
| DeckDialogs.AvailableAppend | src/components/GenerateDeckDialog.tsx:382 | The list keeps the decks' order: appending a deck to the deck list appends it to the target list exactly when it is not the excluded one. |
| DeckDialogs.PickedTargetDiffers | src/components/GenerateDeckDialog.tsx:710 | A picked target is one of the decks and never the excluded one. |
| DeckDialogs.RenameRequest | src/components/GenerateDeckDialog.tsx:483-492 | A rename is sent iff there is a deck and a non-blank title, and it carries the trimmed title. |
| DeckDialogs.SentTitleTrimmed | src/components/GenerateDeckDialog.tsx:491-492 | The sent title is non-empty with no surrounding whitespace. |
| DeckDialogs.ButtonReachesCallback | src/components/GenerateDeckDialog.tsx:526-527 | An enabled Save button always reaches the callback when there is a deck. |
| DeckDialogs.EnterSkipsUnchangedCheck | src/components/GenerateDeckDialog.tsx:522-527 | Enter sends an unchanged title that the button refuses. |
| Base.TrimStart | src/components/Flashcard.tsx:268 | Only leading whitespace is removed. |
| Base.TrimEnd | src/components/Flashcard.tsx:268 | Only trailing whitespace is removed. |
| Base.TrimIsInfix | src/components/Flashcard.tsx:268 | `trim()` is the infix left after removing whitespace at both ends. |
| Base.TrimEnds | src/components/GenerateDeckDialog.tsx:492 | A non-empty trimmed string starts and ends with a non-space character. |
| Base.BlankIffTrimEmpty | src/components/GenerateDeckDialog.tsx:206 | A string is all whitespace iff its `trim()` is empty, i.e. `!s.trim()`. |
| Base.Filter | src/components/GenerateDeckDialog.tsx:212 | The kept elements are from the input and pass the test, and every passing element is kept; `FilterCount` and `FilterAppend` give the multiplicities and the order. |
| Base.FilterCount | src/components/GenerateDeckDialog.tsx:212 | A passing element is kept as often as it occurs in the input, and a failing one never. |
| Base.FilterAppend | src/components/GenerateDeckDialog.tsx:212 | Filtering a concatenation is the concatenation of the filtered parts, so the kept elements keep their input order. |
| Sorting.SortByKeyPermutation | src/app/page.tsx:128 | The sort is a permutation. |
| Sorting.SortedBySortByKey | src/app/page.tsx:128 | The result is sorted by the key. |
| Sorting.SortByKeyStable | src/app/page.tsx:128 | Elements with equal keys keep their relative order. |
| Sorting.SortedFilter | src/app/api/vault/cards/practice/route.ts:55 | Filtered then sorted rows are sorted and are a permutation of the passing rows. |

## Left out

- I/O and services are arguments of the operations: the Supabase store, authentication, the language-model judge and generator, `fetch`, `localStorage`, `Math.random` and the clock. Each operation takes the outcome (a row list, an error marker, a parsed body) and never performs the call.
- IEEE floating point is left out. Scores are exact reals, so the 4.99 and 7.99 gaps are exact. Ease factors are integer tenths, and `Math.round` is rounding half up on exact tenths. JavaScript doubles can round a half case differently.
- Evaluate.Post: the `next_review_at` and `last_reviewed_at` timestamps are integer day offsets, not ISO strings; text of error messages is not kept.
- Evaluate.History, Evaluate.HistoryInvariant: the existing row's ease and interval are taken to be what an earlier evaluation wrote. Of the routes in this model only the evaluate route writes review rows; rows put into the database by other means are not modelled.
- Streak: the per-day counts are an oracle over day offsets. Time zones and the UTC start of day are left out.
- Streak.Put: the goal is a number or absent. A NaN goal and a goal of another JSON type are not modelled: a string such as "50" passes the checks through numeric coercion and is stored as sent, and a non-object body simply has no goal.
- GenerateDeck.Lower: `toLowerCase` is modelled on ASCII letters only.
- GenerateDeck.Runs: `split(/[\s-]+/)` is modelled as maximal runs of non-separators, without its empty pieces, which the length filter drops anyway. Strings are sequences of code points, not UTF-16 units.
- GenerateDeck.IgnoredWordNoEffect: stated for stop words and for one-character words with no digit. A single digit does change the result through the number check: `DigitTokenMatters` and `TaskOneTaskTwo` exhibit it. So "short tokens never matter" holds only in that weaker form.
- GenerateDeck.Post: the generated deck's contents and the card rows inserted are not modelled beyond their count. Deck creation and the card insert are oracles. The deck-creation error text is modelled; the other error texts are fixed strings and the logged details are left out.
- GenerateDeck.Post: `autoMerge` is modelled as absent (the default, true) or as the truthiness of the value sent. A JSON `null` is therefore `Some(false)` and turns merging off, as the destructuring default does.
- TopicAccordion.PreviewText: strings are sequences of code points, while `length` and `substring` count UTF-16 units. An anchor with characters outside the basic plane is cut at a different place.
- HomePage.Home.TransferCard: the deck refetch is modelled as completing before the card is removed from the list; its outcome is a parameter.
- The database's `order by` is modelled as a stable sort of the fetched rows. The database does not promise an order among equal timestamps.
- HomePage.Home.SelectDeck: the async fetch is modelled as completing before any other event. It reads the saved positions from before its own save, as the handler's closure does.
- HomePage.Home.SubmitEvaluation: the contract holds for a handler run with no other event in between. `BeginEvaluation` and `FinishEvaluation` model the two halves. When evaluations overlap (the go-to box stays usable while a card is evaluating), each answer writes the progress its submission read, so one can overwrite the other (`OverlapLosesCompletion`).
- HomePage.Home: these are not modelled: the thin handlers that only call a route and refetch (generate, add cards, upload, merge, rename, delete, create), the dialogs' open flags, the sidebar collapse, and the loading flags.
- Sidebar drag-and-drop, which produces the new order, is not part of this model. `ReorderDecks` takes the order as given.
- Flashcard: the quote texts are left out and only their number, 10, is kept. The date string is built from year, month index and day; time zones are left out.
- Flashcard.FlashcardView: the pages hold no view object, and their events map onto it as follows. Both key the view by the card index and a counter. Next, previous, go-to and Review Again change that key, and so does picking a deck, before its fetch; each of these is `Remount`. A new card under an unchanged key is `Load` on the mounted view: the fetched cards of a picked deck or of the review page arriving, or a successful transfer that keeps the index. No `Load` meets a view that is evaluating: that view shows no transfer button, and picking a deck remounts it first. The captured card id, input and mount are parameters of `FinishSubmit`.
- Flashcard: JSON parsing of the saved states is abstracted to a parsed map or `Unreadable`, and the timestamp is a parameter.
- Flashcard: the transfer button only calls the page's handler. The Next and Previous buttons call the page's handlers when enabled: Next is disabled from the last card on and Previous on the first. This guard is stated by `ReviewPage.NextEnabled`, `ReviewPage.PrevEnabled` and `HomePage.NextEnabled` and used by `ReviewPage.CompletionUnreachable` and `HomePage.NextPressesStop`. The page models' Next and Prev methods are the handlers themselves and take no guard.
- ReviewPage.FetchUrl: URL encoding of the query parameters and of the card id is left out; `URLSearchParams` is modelled by its pairs in order.
- ReviewPage.ReviewSession: the evaluate call of this page is the same route that `Evaluate.Post` models.
- ReviewPage.ReviewSession.Fetched: the single-card normalisation keeps the fetched card record as it is.
- DeckDialogs.UploadForm.ChangeAnchor: `handleAnchorChange` on its shallow copy also mutates the row object shared with the old array. The model treats rows as values, so this aliasing is not captured; no other holder of the old array reads it.
- DeckDialogs.UploadForm: these are not modelled: the `isUploading`, `isMerging` and `isRenaming` flags, the inert initializer `useState(() => ...)` that re-syncs `deckId`, and the dialog components' rendering.
- DeckDialogs: the merge and transfer handlers are not modelled beyond their target lists (`AvailableDecks`).
- Rendering-only components are not part of this model: StreakRing, Sidebar, StatusCard, DiffView, the vault pages, and the auth pages.
- The CRUD-only routes are not part of this model: decks, decks/manage, decks/merge, cards/transfer, cards/upload, cards/manage, cards/[deckId], vault/card and seed.

## Findings

| source | as written | input that shows it | evidently intended | confidence | as-written member | corrected member |
|---|---|---|---|---|---|---|
| src/components/Flashcard.tsx:596 | The review page's only Next button is the card view's, which is disabled when `currentIndex >= totalCards - 1`. The completion branch of `handleNextCard` in src/app/vault/review/page.tsx:87-88 therefore never runs, so the "Session Complete" screen and its Review Again button cannot be reached. | A vault review of two cards: Next moves to card 2, where Next is disabled. A single-card review starts with Next disabled. | In a review session Next stays enabled on the last card, and pressing it there completes the session. | medium; not executed | ReviewPage.CompletionUnreachable | ReviewPage.CorrectedWalkCompletes |
| src/app/page.tsx:202-207 | The evaluation's continuation writes `{...dailyProgress, completed: dailyProgress.completed + 1, ...}` from the progress its render saw when the submission started. | Submit card A, jump to card 2 with the go-to box, submit card B, then A's answer arrives and then B's: the day ends with `completed == 1` and only B recorded, and A counts again when it is next evaluated. | The progress current when the answer arrives is extended, as a functional state update would do, so both cards count. | medium; not executed | HomePage.OverlapLosesCompletion | HomePage.OverlapCountsBoth |
