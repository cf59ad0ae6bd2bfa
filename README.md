# Adaptive vocabulary quiz engine, modelled in Dafny

This project models the engine of a WebXR vocabulary trainer. The engine has two parts.

The question engine is in `data.js`:
- per-word answer statistics, kept in a key-value store;
- a clamped difficulty score derived from those statistics;
- the topic list and the topic filter;
- a cumulative-weight random draw;
- a Fisher–Yates shuffle;
- the "hardest words" ranking;
- `buildQuestion`, which picks a prompt word, adds distractors, shuffles the option labels and reports the correct position.

The round state machine is in `main.js`:
- the game state record, the answer gate, the auto-advance timer, the retry queue for missed words and the review-mode cursor;
- the handlers that drive this state: the HUD buttons, `startQuestionRound`, `evaluateAnswer`, the timer callback and `gameOver`;
- the per-topic best-of record that `gameOver` folds each round into.

Layout:

| file | module | contents |
|---|---|---|
| `util.dfy` | `Util` | `Math.round`, `Math.floor(u * n)`, `findIndex`, `slice`, ASCII lower-casing, distinctness lemmas |
| `data.dfy` | `Data` | catalog entries, word statistics, difficulty, weight, topic list, topic filter |
| `sampling.dfy` | `Sampling` | `weightedSample` and `shuffle`, each as a specification function plus a method with the source's loop |
| `ranking.dfy` | `Ranking` | `getHardestWords`: a stable sort by difficulty, specified as an insertion sort |
| `question.dfy` | `Questions` | `buildQuestion` as a specification function (`QuestionFor`), the properties proved about it, and the method `BuildQuestion` |
| `session.dfy` | `Session` | the engine state as a value, with one pure transition per handler |
| `session_props.dfy` | `SessionProps` | the invariant every handler keeps, plus the properties of scoring, the retry queue, review mode and the buttons |
| `game.dfy` | `Engine` | class `Game`: the same state as mutable fields, one method per command, each proved equal to its transition in `Session` |

How randomness is modelled:
- Every `Math.random()` call is replaced by a caller-supplied real in [0, 1).
- One `buildQuestion` call consumes one draw for the prompt, then one draw per pass of each of its two shuffles (the `Draws` record).

How storage is modelled:
- `localStorage` is modelled as two maps, one for word statistics (`Store`) and one for topic records (`RecordStore`).
- A `writable` flag turns every write into a no-op. This stands for storage that throws, whose exceptions the source swallows.

The engine invariant (`SessionProps.Inv`) that every handler keeps:
- the round size is in [1, 20];
- at most three hardest words are kept;
- `streak <= bestStreak <= correctCount <= questionsAsked`;
- a pending timer means the answer gate is closed;
- the retry queue holds each word at most once, with an attempt count in [1, max(1, maxRetries)];
- the review cursor stays within the review pool;
- an open gate means cards are on the table, the catalog is loaded, and a counted question is still unanswered (`correctCount < questionsAsked`).

A null topic is modelled as the empty string. The source treats null and `""` alike through `||` and `!topic`.

## Model

| member | source | states |
|---|---|---|
| Util.RoundHalfUp | main.js:677 | `Math.round(x)` lies within half a unit of x: `x - 0.5 < n <= x + 0.5` |
| Util.UniformIndex | data.js:119 | `Math.floor(u * n)` for a draw u in [0, 1) is a valid position of a list of length n > 0 |
| Util.IndexOf | main.js:700 | `findIndex` returns -1 exactly when the value is absent, and otherwise the first position holding it |
| Util.SliceTo | data.js:89 | `slice(0, n)` is the prefix of length `min(n, len)` for n >= 0, and of length `max(0, len + n)` for negative n |
| Data.UpdateWordStats | data.js:38-50 | the new record has `seen` one higher, `correct` one higher on a right answer and `wrong` one higher on a wrong one, the other unchanged, and `streakWord` one higher or reset to 0; a missing record counts as all zeros; the store holds the new record under the word's key when writable, is unchanged otherwise, and every other key is untouched |
| Data.UpdateKeepsConsistent | data.js:41-47 | an update keeps `seen == correct + wrong` and `streakWord <= correct` |
| Data.CaseInsensitiveRecord | data.js:25-27 | two spellings of a word that differ only in letter case read the same record |
| Data.Difficulty | data.js:52-59 | the difficulty lies in [0.5, 4.0], and an all-zero record has difficulty exactly 1.0 |
| Data.UnseenWordIsBaseline | data.js:52-59 | a word with no stored record has difficulty 1.0 |
| Data.AnswerMovesDifficulty | data.js:52-59 | a wrong answer never lowers the difficulty, and a correct answer never raises it |
| Data.Weight | data.js:112-116 | the prompt weight is at least 0.2 and at least `1 + weightFactor * (d - 1)` |
| Data.WeightGrowsWithDifficulty | data.js:112-116 | with a non-negative factor, a harder word never weighs less |
| Data.CollectTopicsSpec | data.js:17-22 | inserting the topic labels into a Set keeps them distinct, keeps what was already there as a prefix, and adds exactly the labels of the entries |
| Data.Topics | data.js:17-22 | `getTopics` lists each label `topic \|\| "Misc"` of the catalog exactly once; it is empty only for an empty catalog and starts with the first entry's label |
| Data.ListByTopic | data.js:62-66 | `listByTopic` returns, in catalog order, exactly the positions whose entry has the topic, or every position for the null topic |
| Sampling.WeightedPick | data.js:68-77 | the position drawn is always inside the pool |
| Sampling.WeightedSample | data.js:68-77 | the loop that subtracts the weights from `r` returns the element at the position `WeightedPick` specifies |
| Sampling.CoveringIsFirstCrossing | data.js:71-76 | the subtraction loop stops at the first position whose running total reaches r |
| Sampling.WeightedPickIsFirstCrossing | data.js:68-77 | with a positive sum, the draw is the first i with `r - (w0 + … + wi) <= 0`, and the fallback to the last element is never needed |
| Sampling.WeightedPickInterval | data.js:68-77 | with positive weights, position k is drawn exactly when `r = u * sum` lies above the running total through k - 1 and at most the running total through k |
| Sampling.SwapAt | data.js:142 | exchanging two cells keeps the length and the multiset of elements |
| Sampling.FisherYatesFrom | data.js:140-143 | the swap passes from position i down to 1 permute the sequence |
| Sampling.FisherYates | data.js:138-145 | `shuffle` returns a permutation of its argument |
| Sampling.Shuffle | data.js:138-145 | the in-place swap loop on an array copy yields `FisherYates` of the argument, a permutation; the argument, a value, is left as it was |
| Ranking.InsertPermutes | data.js:88 | an insertion adds exactly the inserted element |
| Ranking.InsertRanked | data.js:88 | inserting into a ranked list keeps it ranked |
| Ranking.RankSorts | data.js:88 | the sort yields a ranked permutation of the scored list |
| Ranking.ScoreAll | data.js:82-87 | one scored item per pool entry, carrying that entry's position, in pool order |
| Ranking.RankTopicMembers | data.js:80-88 | the ranking holds as many items as the topic has entries, each an entry of the topic paired with its difficulty |
| Ranking.RankTopicComplete | data.js:80-88 | every entry of the topic appears in the ranking |
| Ranking.RankTopicOrder | data.js:80-88 | the ranking is by non-increasing difficulty, and entries of equal difficulty keep catalog order, as a stable sort does |
| Ranking.HardestWords | data.js:80-90 | `getHardestWords` returns `min(max(0, count), pool size)` items, in non-increasing difficulty, forming the head of the ranking |
| Questions.MaxOptionsOf | data.js:95 | `Math.max(2, maxOptions \|\| 4)` is at least 2, keeps any requested count of 2 or more, and is 4 when the option is absent (0) |
| Questions.KeepListed | data.js:104-107 | the forced filter keeps exactly the pool entries whose lower-cased label is listed, and keeps catalog order |
| Questions.Without | data.js:123 | `filter(e => e !== p)` keeps exactly the entries other than p |
| Questions.WithoutIncreasing | data.js:123 | on a pool in catalog order, the filter stays in catalog order and drops exactly one entry when p is in the pool |
| Questions.CandidatePool | data.js:100-107 | the candidates are exactly the askable entries: in the topic and, under a non-empty forced pool, listed there up to letter case |
| Questions.PromptPos | data.js:109-120 | the prompt draw is a valid candidate position |
| Questions.Prompt | data.js:109-120 | the prompt is a candidate |
| Questions.DistractorPool | data.js:123-124 | distractors are drawn from the other candidates; when the prompt is the only candidate they come from the whole catalog minus the prompt; the pool never holds the prompt and holds no entry twice |
| Questions.ShuffledPrefix | data.js:126 | `shuffle(pool).slice(0, n)` holds `min(n, pool size)` pool entries, distinct when the pool's are |
| Questions.AssembleSpec | data.js:127-135 | the options are the labels of the prompt and the distractors in some order; `correctIndex` is the first option equal to the prompt's label; distinct labels give distinct options |
| Questions.DistractorCount | data.js:123-126 | the question shows `min(maxOptions - 1, candidates - 1)` distractors, or `min(maxOptions - 1, catalog - 1)` when the prompt is the only candidate |
| Questions.NullIffNothingAskable | data.js:100-107 | `buildQuestion` returns null exactly when no catalog entry is askable: the topic is empty, or a non-empty forced pool matches none of its entries |
| Questions.QuestionWellFormed | data.js:127-135 | on success, the prompt is askable, `correctIndex >= 0` and `options[correctIndex]` is the prompt's label |
| Questions.SingleWordForcesPrompt | data.js:104-106 | a forced pool of one word makes that word the prompt, up to letter case |
| Questions.OptionCount | data.js:122-128 | the option count is the effective `maxOptions` capped by the candidate count, or by the catalog size when the prompt is the only candidate; never more than `maxOptions`, and at least 2 for a catalog of two or more entries |
| Questions.DistractorsAreOthers | data.js:123-126 | the prompt is never a distractor; distractors are pairwise distinct; they come from the candidates when there are others, otherwise from the whole catalog |
| Questions.DistinctOptions | data.js:123-128 | the option labels are pairwise distinct when the catalog's `en` labels are |
| Questions.AdaptivePromptFollowsWeights | data.js:111-117 | in adaptive mode every weight is positive, and candidate k is drawn exactly when the draw falls in k's slice of the running weight total |
| Questions.PickPrompt | data.js:109-120 | the prompt step returns the candidate that `Prompt` specifies |
| Questions.PickDistractors | data.js:123-126 | the distractor step returns the shuffled prefix that `Distractors` specifies |
| Questions.AssembleQuestion | data.js:127-135 | the label shuffle and `findIndex` produce the question that `Assemble` specifies |
| Questions.BuildQuestion | data.js:93-136 | the method returns exactly `QuestionFor`, including the two null cases |
| Session.Initial | main.js:252-256 | after loading, the first topic is selected (null without topics), rounds are 10 questions, no question has been asked, score, streaks and counts are 0, adaptive mode is as configured, the retry queue is empty, review mode is off, the phase is idle, the gate is closed and no timer is pending |
| Session.AccuracyPct | main.js:173 | the rounded accuracy is in [0, 100] for a valid count, and 0 for a non-positive total |
| Session.UpdateStatsOnGameOver | main.js:167-187 | `plays` rises by one; question and correct totals are summed; best score, best streak and best accuracy are max-merged, so they never decrease; the record is written under the topic's key when writable, and other keys are untouched |
| Session.GameOver | main.js:751-791 | the round finishes with the gate closed and the timer cancelled; the summary carries the round's score, correct count, best streak and the accuracy over `roundSize`; the record store and the summary's record are those of `updateStatsOnGameOver` for `selectedTopic || "All"`; the hard words are the three hardest of that topic |
| Session.FindRetry | main.js:700 | the queue position of a word is -1 exactly when the word is not queued |
| Session.FindDue | main.js:606 | `find(it => it.dueAt <= asked)` returns the first due entry in insertion order, or -1 exactly when none is due |
| Session.RemoveAt | main.js:702 | `splice(i, 1)` removes position i and shifts the rest down |
| Session.AnswerTopic | main.js:695 | the topic an answer is recorded under is never empty |
| Session.TopicPos | main.js:481 | the topic position is the selected topic's index, or 0 when the topic is not listed |
| Session.ProgressValue | main.js:577-580 | progress is in [0, 1], and equals asked/roundSize inside a round |
| SessionProps.InitialInv | main.js:252-256 | the loaded state satisfies the engine invariant |
| SessionProps.GameOverInv | main.js:751-754 | `gameOver` restores the full invariant from any state satisfying the base invariant (everything except the answer-gate clause) |
| SessionProps.RemoveKeepsNoDup | main.js:702 | a splice keeps the queued words distinct |
| SessionProps.RetryKeepsOk | main.js:699-720 | the retry queue keeps at most one entry per word, each with 1 <= attempts <= max(1, maxRetries) |
| SessionProps.StartQuestionInv | main.js:583-653 | `startQuestionRound` establishes the invariant, and its gate opens only for a counted question whose cards are on the table |
| SessionProps.ShowInv | main.js:638-650 | showing a built question keeps the invariant |
| SessionProps.EvaluateInv | main.js:668-748 | `evaluateAnswer` keeps the invariant |
| SessionProps.FireTimerInv | main.js:741-746 | the auto-advance callback keeps the invariant |
| SessionProps.StartOrNextInv | main.js:505-523 | the start/next button keeps the invariant |
| SessionProps.RestartRoundInv | main.js:524-532 | the restart button keeps the invariant |
| SessionProps.ReviewOnlyInv | main.js:533-547 | the review button keeps the invariant |
| SessionProps.TopicStepInv | main.js:479-492 | the topic buttons keep the invariant |
| SessionProps.RoundSizeInv | main.js:493-500 | the round-size buttons keep the invariant, and the round size stays in [1, 20] |
| SessionProps.AdaptiveToggleInv | main.js:501-504 | the adaptive switch keeps the invariant |
| SessionProps.ChooseTopicInv | main.js:548-554 | the choose-topic button keeps the invariant |
| SessionProps.AtMostOneAnswer | main.js:669-670 | after one answer to a question, a second answer changes nothing |
| SessionProps.AnswerScoring | main.js:675-693 | a correct answer adds `round(correctPoints * (1 + streak * streakBonus))`, extends the streak, raises `bestStreak` to it and counts one correct answer; a wrong one resets the streak and leaves score and count alone; either way the gate closes, feedback shows and the timer starts |
| SessionProps.DefaultPoints | main.js:676-677 | with 100 points and a 0.15 bonus, three correct answers in a row earn 100, 115 and 130 |
| SessionProps.GainedGrows | main.js:676-677 | with non-negative settings, a longer streak never earns fewer points, and no answer earns fewer than zero |
| SessionProps.AnswerFeedsNextDraw | main.js:695-697 | the answer is recorded under the key the next prompt draw reads, and moves the word's difficulty in the answer's direction |
| SessionProps.RetryOutcome | main.js:699-720 | a correct answer removes the word; a first miss appends `{attempts: 1, dueAt: asked + retryAfter}`; a repeat miss reschedules while `attempts < maxRetries` and removes the entry otherwise; an entry of any other word is in the queue after the answer exactly when it was before |
| SessionProps.RetryKeepsOthersInOrder | main.js:699-720 | the entries of every other word stay in the queue in the same relative order, so which of them `find` reports as first due is unchanged |
| SessionProps.DefaultRetrySchedule | main.js:704-718 | with the shipped settings a word missed at question 5 is due at 8, missed again is due at 11 on attempt 2, and a third miss removes it |
| SessionProps.StartQuestionOutcome | main.js:589-622 | a complete round finishes without counting; otherwise the counter and `round` rise by one, an exhausted review finishes, and a null question leaves phase and gate as they were |
| SessionProps.ShowOutcome | main.js:618-650 | a built question replaces the cards and opens the gate; a null question changes neither |
| SessionProps.ReviewAsksInOrder | main.js:599-604 | review mode asks its words in order and moves its cursor by one per question |
| SessionProps.DueRetryIsAsked | main.js:605-608 | in adaptive mode outside review, the first due retry entry in insertion order is asked |
| SessionProps.NothingDueForcesNothing | main.js:597-616 | outside review mode, with adaptive mode off or no retry entry due, no word is forced, and the question is drawn over the whole selected topic with four options, adaptively exactly when adaptive mode is on |
| SessionProps.ForcedWordIsAsked | main.js:597-618 | a question started with a one-word forced pool asks that word |
| SessionProps.StartOrNextWhileAwaiting | main.js:512-517 | while an answer is awaited, the start/next button only leaves review mode |
| SessionProps.StartQuestionKeeps | main.js:583-653 | asking the next question leaves review mode, score, streak, correct count and retry queue alone, keeps a stopped timer stopped, and with a catalog and an incomplete round counts one question |
| SessionProps.StartOrNextOutcome | main.js:505-523 | in every phase the button leaves review mode; outside the answer phase no timer is left pending; from idle or finished the new round starts with score, streak, correct count and retry queue cleared and its first question counted; from feedback the same round goes on, with score, streak, count and queue kept and the counter one higher |
| SessionProps.FireTimerOutcome | main.js:741-746 | the timer callback, unlike the button, leaves review mode as it was; it clears the timer, ends a complete round without counting, and otherwise counts the next question, keeping score and correct count |
| SessionProps.GameOverRecordsRound | main.js:756-776 | the summary carries the round's score and count and the accuracy `round(100 * correct / roundSize)`, which is 0 for a round size below 1 and within [0, 100] when `correctCount <= roundSize`; the folded topic record is stored under the topic's key when writable, and its best score, best streak and best accuracy are at least this round's; against the topic's previous record (all zeros when missing), plays is one higher, the totals grow by the round size and correct count, each best is the larger of the old best and this round's, a read-only store is unchanged, and every other key is untouched; the hard words are those of the round's topic |
| SessionProps.ShrunkRoundOverflowsAccuracy | main.js:493-496 | from an invariant state with 5 of 5 answered correctly in a round of 10 and the timer pending, seven presses of minus keep the invariant and reach round size 3, and the timer then ends the round with accuracy 167, which becomes the topic's best accuracy |
| SessionProps.TopicStepsInvert | main.js:479-492 | topic steps land on listed topics, and next-then-previous (or previous-then-next) returns to the selected topic |
| SessionProps.NoTopicsNoSelection | main.js:480 | without topics, the selection becomes null |
| SessionProps.RoundSizeStepsInvert | main.js:493-500 | minus never goes below 3 and plus never above 20; they undo each other inside [3, 20] (a review round may start at a size below 3, so the range the buttons keep overall is the invariant's [1, 20]) |
| Engine.Game.constructor | main.js:252-256 | the engine starts in the loaded state, which satisfies the invariant |
| Engine.Game.ResetRoundState | main.js:565-575 | zeroes the round counters, sets the phase to idle, empties the retry queue and cancels the timer |
| Engine.Game.GameOver | main.js:751-791 | performs `Session.GameOver` in place |
| Engine.Game.Finish | main.js:751-788 | sets the finished phase, closes the gate, cancels the timer, and stores the record, hardest words and summary |
| Engine.Game.StartQuestionRound | main.js:583-653 | performs `Session.StartQuestion` in place |
| Engine.Game.CountQuestion | main.js:594-595 | raises `questionsAsked` and sets `round` to it |
| Engine.Game.ForcedPool | main.js:597-608 | returns the forced pool (the next review word, else the first due retry, else none) and moves the review cursor |
| Engine.Game.ShowQuestion | main.js:618-650 | stores the built question; a non-null question with options is shown and the gate opens |
| Engine.Game.EvaluateAnswer | main.js:668-748 | performs `Session.Evaluate` in place and keeps the invariant |
| Engine.Game.ScoreAnswer | main.js:675-693 | updates score, streak, best streak and correct count as `Session.Score` specifies |
| Engine.Game.RecordAnswer | main.js:695-747 | records the word, maintains the retry queue, shows the feedback and starts the timer, as `Session.Record` specifies |
| Engine.Game.StoreWordStats | main.js:695-697 | writes the word's new record to the store and changes nothing else |
| Engine.Game.ShowFeedback | main.js:728-747 | sets the feedback phase and starts the timer when auto-advance is on |
| Engine.Game.UpdateRetryQueue | main.js:699-720 | the in-place splice, field update or push leaves the queue that `RetryAfterAnswer` specifies |
| Engine.Game.FireTimer | main.js:741-746 | the timer callback performs `Session.FireTimer` and keeps the invariant |
| Engine.Game.TopicPrev | main.js:479-485 | selects the previous topic cyclically (null without topics) and keeps the invariant |
| Engine.Game.TopicNext | main.js:486-492 | selects the next topic cyclically (null without topics) and keeps the invariant |
| Engine.Game.RoundMinus | main.js:493-496 | `roundSize := max(3, roundSize - 1)`, keeping the invariant |
| Engine.Game.RoundPlus | main.js:497-500 | `roundSize := min(20, roundSize + 1)`, keeping the invariant |
| Engine.Game.AdaptiveToggle | main.js:501-504 | flips adaptive mode, keeping the invariant |
| Engine.Game.StartOrNext | main.js:505-523 | performs `Session.StartOrNext` in place and keeps the invariant |
| Engine.Game.RestartRound | main.js:524-532 | performs `Session.RestartRound` in place and keeps the invariant |
| Engine.Game.ReviewOnly | main.js:533-547 | starts a review round over at most `reviewMax` hardest words, with the round size set to their number, and keeps the invariant |
| Engine.Game.ChooseTopic | main.js:548-554 | leaves review mode, returns to idle and keeps the invariant |
| Engine.Game.LeaveReview | main.js:512 | clears `reviewMode.active` and changes nothing else |
| Engine.Game.ProgressValue | main.js:577-580 | the progress of the current state, in [0, 1] |

## Left out

- Rendering, input and devices are not modelled: controllers, raycasting, hands, text-to-speech, the HUD, answer cards, haptics, sound, confetti, table placement and layout. None of them affects the engine state.
- The table-bounds guard of `startQuestionRound` (main.js:585) is taken to pass: a table is always placed.
- `loadWords` (network fetch and JSON parsing) is not part of this model. The catalog is an input, and `None` stands for a failed load.
- `localStorage` parsing and its swallowed exceptions are modelled only as a store that may refuse writes. A stored record that does not parse is not modelled.
- The ISO timestamps `lastSeen` and `lastPlayed` are left out. They have no effect on behaviour.
- Numbers are exact reals and unbounded integers. IEEE rounding of the difficulty, weight and point arithmetic is not modelled.
- `toLowerCase` is modelled for ASCII letters only.
- The delay of the auto-advance timer (`showMs`) is not modelled. A pending timer is a flag, and its callback is the explicit `FireTimer` step.
- `Math.random` is replaced by caller-supplied draws in [0, 1). The model proves what is drawn for each draw, not how likely each outcome is.
- `buildQuestion`'s own fallback for a non-finite `weightFactor` (data.js:98) is not modelled. The engine always passes the configured factor.
- The `hint` and `de` fields of the prompt object are carried unchanged inside the prompt entry.
- `gameState` and `reviewMode` are record values inside the class, reassigned in place. This does not model aliasing of those objects by other code.
- The handlers of `Engine.Game` are split into small helper methods, each proved against its own step of `Session`.
- SessionProps.GameOverRecordsRound: the accuracy bound [0, 100] is stated only for `correctCount <= roundSize`. In the source, `roundMinus` has no phase guard, so the round size can drop below the correct count mid-round. `gameOver` then reports an accuracy above 100 and keeps it as the topic's best (`SessionProps.ShrunkRoundOverflowsAccuracy`). The model keeps that behaviour rather than correcting it.
- Sampling.Shuffle: the source shuffles an array copy in place. The method does the same on a fresh array, so the argument (a value) cannot change.
