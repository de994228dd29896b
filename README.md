# Family profiles app — a Dafny model of its core

The app keeps a list of kid profiles and a message thread per kid. It offers four features, all in `app.js`:

- a family trivia quiz generated from the profiles;
- a wardrobe check that compares clothing counts with an age-based recommendation;
- a personal-care "level-up" system: XP, six levels, badges, a daily streak, smell self-checks and a supply list;
- a parents' dashboard that turns each kid's personal-care record into insights.

This project models those rules as Dafny values and classes and proves what they guarantee.

Modules, one file each:

- `Common` (`common.dfy`): Option, Min/Max, a duplicate-free predicate, and the array `filter` that drops one value.
- `Profiles` (`profiles.dfy`):
  - kid records, the colour migration, the age avatar, `String.prototype.trim`;
  - the `Family` class holding `kids` and `messages`, with `createKid`, `migrateColors` and `sendMessage`.
- `PersonalCare` (`personal_care.dfy`):
  - the personal-care record as a value (`Care`), with one function per operation;
  - the class `CareRecord`, which the app updates in place; each of its methods is proved to follow the matching function.
- `Trivia` (`trivia.dfy`): question generation.
- `TriviaSession` (`trivia_session.dfy`): the `triviaState` record as the class `Game`, and the result percentage and title.
- `Wardrobe` (`wardrobe.dfy`): the numbers of `analyzeWardrobe`.
- `Insights` (`insights.dfy`): `parseInt` and `getPersonalCareInsights`.

Randomness is modelled by nondeterminism. Every `sort(() => 0.5 - Math.random())` is the method `Trivia.Shuffle`. It may return any permutation, so every trivia property is about contents, not order.

Dates are integer day numbers. "Yesterday" is the day before.

The model follows the code in these places, where a reader might expect otherwise:

- Answering a trivia question has no guard against a second click. Each click scores, and each schedules another advance. A one-question quiz can therefore end at 2 out of 1, i.e. 200% (`TriviaSession.RepeatedClickScoresTwice`).
- Starting a quiz does not cancel the advances still scheduled by earlier clicks. One that fires after a restart moves the new quiz past its first question (`TriviaSession.StaleAdvanceSkipsFirstQuestion`).
- `generateTriviaQuestions` cuts its list at the session's `totalQuestions`. `startTrivia` then lowers that to the number of questions, so the cap never grows back after a short quiz.
- `createKid` only checks that the name and the age text are non-empty.
- Every question has exactly four options, because every pool of wrong answers has at least four entries.
- `updateStreak` clears the day's task list on the first task of a new day. That task is therefore not kept, and checking it again the same day earns its XP twice.
- The badge check runs before the streak update. So the task that lifts the streak to 3 does not earn the 3-day badge.

## Model

| member | source | states |
|---|---|---|
| Profiles.MigratedColorIsCurrent | app.js:7-23 | no migrated colour is a legacy colour name |
| Profiles.MigrateColorIdempotent | app.js:7-23 | migrating a colour twice equals migrating it once |
| Profiles.Family.MigrateColors | app.js:16-20 | every kid's colour is renamed by the mapping, nothing else changes, and no legacy name remains |
| Profiles.KidAvatar | app.js:143-148 | `getKidEmoji`: the avatar band of an age, up to 5, up to 10, up to 15, and older; its properties are `KidAvatarMonotone` and `Wardrobe.AgeGroupMatchesAvatar` |
| Profiles.KidAvatarMonotone | app.js:143-148 | an older kid never gets a younger avatar band |
| Profiles.Family.CreateKid | app.js:88-107 | a kid is appended exactly when name and age are non-empty, with an empty profile and `bright-blue` when no colour is chosen; otherwise the list is unchanged |
| Profiles.Trim | app.js:649 | `String.prototype.trim` on the message text; its properties are `TrimProperties` and `TrimIdempotent` |
| Profiles.TrimProperties | app.js:649 | trimming cuts only white space, and only from the two ends, and leaves a slice of the text that neither starts nor ends with white space; it is empty exactly when the text is all white space |
| Profiles.TrimIdempotent | app.js:649 | trimming twice equals trimming once |
| Profiles.Family.SendMessage | app.js:645-668 | a message is sent exactly when a kid is selected and the trimmed text is non-empty; the trimmed text from "Family Member" is appended to that kid's thread, which is created if missing; otherwise nothing changes |
| PersonalCare.XpNeeded | app.js:1562-1569 | the level table defines exactly the levels 1 to 6 |
| PersonalCare.LevelUp | app.js:1777-1788 | `checkLevelUp` on a level and an XP total; its properties are `LevelUpStep` and `LevelUpApproachesLevelFor` |
| PersonalCare.LevelUpStep | app.js:1777-1788 | a level check stays within 1..6 and goes up by one exactly when the next level exists and its XP is reached |
| PersonalCare.HighestReachedIsHighest | app.js:1562-1569 | the reference level is the highest level whose XP threshold is reached |
| PersonalCare.LevelUpApproachesLevelFor | app.js:1777-1788 | below the level the XP qualifies for, a level check moves one level up; at or above it (a level kept after unchecking a task took XP back), the level stays |
| PersonalCare.CareRecord.CheckLevelUp | app.js:1777-1788 | the level becomes the level check's result; nothing else changes |
| PersonalCare.AppendNewProperties | app.js:1868-1879 | appending when absent keeps the list duplicate-free, keeps the old entries first, and the members are the old ones plus the new one |
| PersonalCare.CareRecord.EarnBadge | app.js:1868-1879 | the badge is appended when not yet earned |
| PersonalCare.CheckBadges | app.js:1834-1866 | `checkBadgeEarning` on the badge list, the streak and the day's tasks: five guarded awards in source order; its properties are `CheckBadgesExact` and `CheckBadgesKeeps` |
| PersonalCare.CheckBadgesExact | app.js:1834-1866 | after the badge check a badge is held exactly when it was held before or its rule holds: streak at least 3 or 7, or a shower, teeth or smell task done |
| PersonalCare.CheckBadgesKeeps | app.js:1834-1866 | the badge check keeps earlier badges first and in order and never lists a badge twice |
| PersonalCare.CareRecord.CheckBadgeEarning | app.js:1834-1866 | the badges become the result of the five checks in source order |
| PersonalCare.Care.UpdateStreak | app.js:1897-1917 | `updateStreak` on a record value; its properties are `UpdateStreakIdempotent` and `ConsecutiveDaysStreak`, and `CareRecord.UpdateStreak` follows it |
| PersonalCare.UpdateStreakIdempotent | app.js:1897-1917 | a second activity on the same day changes nothing |
| PersonalCare.ConsecutiveDaysStreak | app.js:1897-1917 | activity on n consecutive days after a gap gives a streak of n, with the last day recorded and the task list cleared |
| PersonalCare.CareRecord.UpdateStreak | app.js:1897-1917 | a new day extends the streak when the last activity was yesterday and restarts it at 1 otherwise, records the day and clears the tasks; the same day changes nothing |
| PersonalCare.Care.CompleteTask | app.js:1740-1775 | `completeTask` on a record value; its properties are `CompleteTaskPreservesValid`, `CompleteTaskChecked`, `CompleteTaskUnchecked`, `CompleteTaskOtherwiseNoChange`, `NewDayTaskEarnsTwice` and `StreakBadgeMissesLiftingTask`, and `CareRecord.CompleteTask` follows it |
| PersonalCare.CompleteTaskPreservesValid | app.js:1740-1775 | completing or unchecking a task keeps the level in 1..6, XP and streak non-negative, and badges, tasks and supplies duplicate-free |
| PersonalCare.CompleteTaskChecked | app.js:1746-1763 | checking a new task adds exactly its XP and at most one level, and records the day; the task list keeps the task on an active day and is cleared on a new day |
| PersonalCare.CompleteTaskUnchecked | app.js:1767-1774 | unchecking a done task removes it, takes its XP back but never below zero, and leaves level, streak and badges alone |
| PersonalCare.CompleteTaskOtherwiseNoChange | app.js:1740-1775 | checking a done task, or unchecking one not done, changes nothing |
| PersonalCare.NewDayTaskEarnsTwice | app.js:1746-1763 | the first task of a new day, checked twice, earns its XP twice |
| PersonalCare.StreakBadgeMissesLiftingTask | app.js:1753-1760 | the task that lifts the streak from 2 to 3 does not earn the 3-day badge |
| PersonalCare.CareRecord.CompleteTask | app.js:1740-1775 | the record becomes the result of push, level check, badge check and streak update in that order, or of the removal, and stays valid |
| PersonalCare.KeepRecent | app.js:1929-1934 | the push and the cut to the last ten checks; its property is `KeepRecentProperties` |
| PersonalCare.Care.RecordSmellCheck | app.js:1919-1938 | `recordSmellCheck` on a record value: the check with its feedback text is added to the capped history; its properties are `KeepRecentProperties`, `TwoRefreshesNeedAttention` and `TwoFreshClearAttention`, and `CareRecord.RecordSmellCheck` follows it |
| PersonalCare.KeepRecentProperties | app.js:1919-1938 | the smell history keeps the last ten checks in order, ending with the new one |
| PersonalCare.CareRecord.RecordSmellCheck | app.js:1919-1938 | the check, with its feedback text, is added to the history capped at ten; the record stays valid |
| PersonalCare.CareRecord.AddSupplyNeed | app.js:1961-1970 | the supply is appended when not already listed; the record stays valid |
| PersonalCare.Care.AddSupplyNeed | app.js:1961-1970 | `addSupplyNeed` on a record value: the supply is appended when absent; its properties are `AppendNewProperties` and `RemoveUndoesAdd`, and `CareRecord.AddSupplyNeed` follows it |
| PersonalCare.Care.RemoveSupplyNeed | app.js:1972-1979 | `removeSupplyNeed` on a record value: the in-order filter of the supply list; its properties are `Common.RemoveAll`, `Common.RemoveAllLength` and `RemoveUndoesAdd`, and `CareRecord.RemoveSupplyNeed` follows it |
| PersonalCare.RemoveUndoesAdd | app.js:1961-1979 | removing a supply undoes adding it when it was not listed before |
| PersonalCare.CareRecord.RemoveSupplyNeed | app.js:1972-1979 | every occurrence of the supply is removed, the rest kept in order; the record stays valid |
| PersonalCare.CareRecord.constructor | app.js:1581-1600 | a fresh record is level 1 with no XP, badges, tasks, streak, activity, supplies or checks |
| Common.RemoveAll | app.js:1976 | the filtered list lacks the value and keeps every other value with its multiplicity |
| Common.RemoveAllLength | app.js:1976 | filtering shortens the list by the number of occurrences removed |
| Trivia.WrongAnswersDistinct | app.js:719-748 | no pool of wrong answers repeats a literal, and each has at least four |
| Trivia.KidStemsExact | app.js:751-768 | a kid yields a question for a template exactly when that template's answer is present and non-empty |
| Trivia.Candidates | app.js:750-768 | the questions the two nested loops would push, one per eligible (kid, template) pair in loop order; its properties are `CandidatesSound`, `CandidatesComplete`, `CandidatesExact` and `OnlyAgeYieldsOneCandidate` |
| Trivia.KidQuestions | app.js:751-767 | the inner loop over the templates for one kid yields exactly that kid's eligible pairs, every question well built |
| Trivia.CandidatesSound | app.js:750-768 | every candidate question comes from a kid in the list whose answer for the template is filled in |
| Trivia.CandidatesComplete | app.js:750-768 | every eligible (kid, template) pair of a kid in the list yields a candidate |
| Trivia.CandidatesExact | app.js:750-768 | the candidate questions are exactly those of eligible (kid, template) pairs |
| Trivia.OnlyAgeYieldsOneCandidate | app.js:744-768 | a kid with only a name and an age yields exactly the age question |
| Trivia.Shuffle | app.js:758-770 | the result is a permutation of the input |
| Trivia.BuildQuestion | app.js:752-766 | the question asks the template's text about the kid with its answer; that answer is one option, appearing once; no option repeats; the others come from the pool; there are 1 + min(3, pool without the answer) options |
| Trivia.OptionsFromPool | app.js:757-763 | options drawn from a duplicate-free pool this way have the properties above |
| Trivia.WellBuiltHasFourOptions | app.js:757-763 | every generated question has exactly four options |
| Trivia.StemsMultiset | app.js:770 | reordering questions keeps the multiset of what they ask |
| Trivia.GenerateTriviaQuestions | app.js:712-771 | no kids gives no questions; otherwise min(cap, eligible pairs) well-formed questions, none asked more often than its pair allows |
| TriviaSession.Game.constructor | app.js:705-710 | the initial state: question 0, score 0, no questions, total 5 |
| TriviaSession.Game.StartTrivia | app.js:773-787 | the questions are generated with the previous total as cap; the quiz starts exactly when some pair is eligible; on start, position and score are 0 and the total is min(5, count), which equals the count; otherwise only the list changes; the total never grows |
| TriviaSession.Game.SelectTriviaAnswer | app.js:813-836 | a matching answer adds one point and any other adds none; every click counts and schedules one more advance |
| TriviaSession.Game.AdvanceAfterFeedback | app.js:828-835 | any scheduled advance, including one scheduled before the quiz was restarted, moves the position one on, and the quiz is over exactly when it reaches the total |
| TriviaSession.Percentage | app.js:842 | the rounded percentage of the result screen; its properties are `PercentageIsNearest`, `PercentageBounds` and `PercentageMonotone` |
| TriviaSession.BandOf | app.js:845-854 | the title for a percentage, with thresholds 80 and 60; its properties are `BandMonotone` and `BandExtremes` |
| TriviaSession.PercentageIsNearest | app.js:842 | the percentage is 100·score/total rounded to the nearest integer, halves upward |
| TriviaSession.PercentageBounds | app.js:842 | with no more points than questions the percentage is within 0..100; all right gives 100 and none right gives 0 |
| TriviaSession.PercentageMonotone | app.js:842 | more points never give a lower percentage |
| TriviaSession.BandMonotone | app.js:845-854 | more points never give a lower title |
| TriviaSession.BandExtremes | app.js:845-854 | all right earns "Amazing!", none right "Keep Learning!" |
| TriviaSession.Game.ShowTriviaResult | app.js:838-857 | the result is the rounded percentage and its title (80 and 60 thresholds), within 0..100 when no question was answered twice |
| TriviaSession.RepeatedClickScoresTwice | app.js:813-836 | two clicks on the right answer of a one-question quiz score 2 of 1, shown as 200% |
| TriviaSession.StaleAdvanceSkipsFirstQuestion | app.js:773-787 | an advance scheduled by a click just before the quiz is restarted runs on the new quiz: a one-question quiz ends at 0 of 1 before its question is answered |
| Wardrobe.RecommendationFor | app.js:894-911 | the recommended counts for an age; its properties are `RecommendationMonotone` and `AgeGroupMatchesAvatar` |
| Wardrobe.AnalyzeWardrobe | app.js:871-976 | the age group, the category lines and the shopping list; its properties are `AnalyzeWardrobeShoppingList` and `AnalyzeWardrobeBalanced` |
| Wardrobe.AnalyzeWardrobeShoppingList | app.js:913-970 | from the inventory and the age: the shopping list has a line exactly for each category with fewer pieces than recommended, asking for the difference |
| Wardrobe.AnalyzeWardrobeBalanced | app.js:913-976 | from the inventory and the age: the wardrobe is called well balanced exactly when no category is below its recommendation |
| Wardrobe.ShoppingList | app.js:963-970 | the `needsMore` list with each category's missing amount; its properties are `ShoppingListExact`, `ShoppingListNeedsPositive` and `ShoppingListEmpty` |
| Wardrobe.ShoppingListExact | app.js:963-970 | the shopping list has a line exactly for each category short of its recommendation, asking for the difference |
| Wardrobe.ShoppingListNeedsPositive | app.js:963-970 | every shopping line asks for a positive amount that brings its category exactly to the recommendation |
| Wardrobe.ShoppingListEmpty | app.js:963-976 | the list is empty, and the wardrobe called well balanced, exactly when every category is good |
| Wardrobe.RecommendationMonotone | app.js:894-909 | an older kid is never recommended fewer pieces of any category |
| Wardrobe.AgeGroupMatchesAvatar | app.js:894-909 | the age groups coincide with the avatar bands: toddler with the baby avatar, elementary with the child avatar |
| Wardrobe.EmptyWardrobeNeedsEverything | app.js:913-970 | an empty wardrobe needs the full recommendation of every category |
| Insights.ParseInt | app.js:2075 | `parseInt(kid.age)` with no radix; its properties are `ParseIntDecimal` and `ParseIntNoDigits` |
| Insights.ParseIntDecimal | app.js:2075 | `parseInt` reads back the decimal text of any number followed by non-digit text, except a 0 followed by x |
| Insights.ParseIntNoDigits | app.js:2075 | text whose first character is not white space, a sign or a decimal digit reads as NaN |
| Insights.NeedsAttention | app.js:2094-2104 | the attention rule: at least two of the last three smell checks need a refresh; its properties are `TwoRefreshesNeedAttention` and `TwoFreshClearAttention` |
| Insights.TwoRefreshesNeedAttention | app.js:2094-2104 | two smell checks in a row that need a refresh always raise the attention insight |
| Insights.TwoFreshClearAttention | app.js:2094-2104 | two fresh smell checks in a row always clear it |
| Insights.RaisedInsights | app.js:2077-2122 | the five checks of one record in source order; its properties are `RaisedInsightsExact` and `RaisedInsightsNoDuplicates` |
| Insights.RaisedInsightsExact | app.js:2077-2117 | the checks in order raise exactly the insights whose condition holds |
| Insights.RaisedInsightsNoDuplicates | app.js:2077-2122 | when each kind is checked once, no insight is listed twice |
| Insights.KidInsights | app.js:2072-2123 | the insights of one kid; its property is `KidInsightsExact` |
| Insights.PersonalCareInsights | app.js:2069-2127 | the insights of all kids in list order; its property is `PersonalCareInsightsExact` |
| Insights.KidInsightsExact | app.js:2071-2122 | a kid's insights are exactly the kinds its record raises, in the kid's name, and none without a record |
| Insights.PersonalCareInsightsExact | app.js:2069-2120 | the dashboard lists an insight exactly when a kid of that name has a record that raises it |
| Insights.ConcernAndCelebrateExclusive | app.js:2077-2112 | no kid is both flagged for no activity and celebrated for a streak |

## Left out

- The `alert` messages of `createKid`, `generateTriviaQuestions` and `startTrivia`: they become the `created` and `started` results. With no kids the app shows two alerts in a row; the model only reports that no quiz started.
- Rendering, DOM events, the success animations and the celebration pop-ups: they only display state.
- `localStorage` loading and saving: state is given and returned as values.
- `setTimeout`: the delayed trivia advance is the separate method `AdvanceAfterFeedback`. It may run once for every earlier click, also after the quiz was restarted, but the model does not order it against other events by time. The one-second delay in `createKid` is left out.
- `Math.random` distributions: shuffles are arbitrary permutations. Generated kid ids and timestamps are parameters.
- `Date`: days are integer day numbers and timestamps are integers. Time-zone and calendar rules are left out.
- Floating point: the trivia percentage is computed on exact rationals. For totals up to five no half-way case arises, so this agrees with `Math.round` on doubles.
- Coercion of the age text in comparisons (`age <= 5` in `getKidEmoji` and `analyzeWardrobe`): the model takes the age as a number. A non-numeric age, which JavaScript compares as NaN and so places in the oldest band, is not modelled there.
- Wardrobe counts read with `parseInt(… || 0)`: they are taken as whole numbers. A NaN count is not modelled.
- The wardrobe feedback HTML, category names and status colours: only the counts, the good/short verdict and the shopping amounts are modelled.
- Insight message texts: an insight is its kind and the kid's name.
- `migrateColors` uses a plain object as its map, so a colour such as `constructor` would hit an inherited property. Only the five listed colours are mapped in the model.
- Profile fields the core does not read, `saveProfile`, `loadProfile`, outfit suggestions, the age-appropriate task lists, and the CSS injection are not part of this model.
- `completeTask` and the other personal-care functions return early when no kid is selected, and `completeTask` also when the selected kid has no personal-care record. The model works on the record of the selected kid.
- PersonalCare.CareRecord.CompleteTask: requires a non-negative XP reward. Every task in the app passes a positive constant.
- Generated trivia options are proved as a multiset property, not as a distribution: all permutations are allowed, not equally likely.
