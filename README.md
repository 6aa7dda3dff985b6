# Plants and animals lesson: a Dafny model of the lesson's screens

The application is a children's lesson in Vietnamese about plants and animals. It is
a shell that shows one of five screens: intro, mind map, quiz, result and
classification game. The model covers:

- the shell's phase controller and the mascot's message and mood (`App`, from `App.tsx`);
- the six-question quiz and its answer lock and two-second timer (`QuizScreen`, from
  `components/Quiz.tsx`, with the correct answers of `constants.tsx`);
- the classification game, where ten items are sorted into a plant zone and an
  animal zone (`ClassificationGame`, from `components/ClassificationGame.tsx`);
- the speech helper's voice cache, the check for a Vietnamese voice, and the
  choice of voice for an utterance (`AudioUtils`, from `utils/audioUtils.ts`).

Each React component's `useState` fields become the fields of a class. Its event
handlers become methods, and every method states the new value of each field it
may change.
Timers are explicit pending continuations that a method runs: the quiz's
`timer`, the game's `pendingClears` and the voice check's `pending`. The platform
(whether speech synthesis exists, what `getVoices()` returns) and the random shuffle
are parameters. Pure computations are functions: `showResult`, the button style,
the mascot's message and mood, and the voice preference. Their properties are
proved as lemmas.

Three facts about the code shape the model:

- Besides the six forward and restart transitions, the shell wires a home button on
  the mind map, the quiz and the game (`App.tsx:213, 222, 243`). `App.Edge`
  therefore has two extra edges into the intro; the game's home reuses the
  game-to-intro edge.
- Neither the quiz's 2000 ms timer nor the game's 800 ms timer is ever cancelled.
  The model keeps them alive after their screen has gone, which is what gives the
  findings below.
- The game's header shows a restart button at all times
  (`components/ClassificationGame.tsx:142-147`), so `ResetGame` has no completion
  precondition. Restart does not clear the feedback highlight.

## Model

| member | source | states |
|---|---|---|
| ClassificationGame.CatalogUniqueIds | components/ClassificationGame.tsx:6-17 | The catalog has ten entries and no id twice. |
| ClassificationGame.ArrangementFacts | components/ClassificationGame.tsx:32-34 | Any reordering of the catalog (the shuffle) has ten entries with distinct ids; this is one half of `ListsCatalogIff`. |
| ClassificationGame.WithoutId | components/ClassificationGame.tsx:66 | The filter never lengthens the pool and leaves no entry with the removed id. |
| ClassificationGame.WithoutIdMembers | components/ClassificationGame.tsx:97 | An item survives the filter exactly when it was in the pool and has a different id. |
| ClassificationGame.WithoutIdRemovesAt | components/ClassificationGame.tsx:66 | In a pool with distinct ids, filtering out the id of the entry at `k` removes exactly that entry and keeps the order of the rest. |
| ClassificationGame.CatalogItemIff | components/ClassificationGame.tsx:6-17 | An item is a catalog entry exactly when its id is between 1 and 10 and its category is the one the catalog gives that id (plants odd, animals even). |
| ClassificationGame.ListsCatalogIff | components/ClassificationGame.tsx:32-34 | A sequence of ten catalog entries with distinct ids is exactly a reordering of the catalog, in both directions. |
| ClassificationGame.ListingIsArrangement | components/ClassificationGame.tsx:32-34 | Ten catalog entries with distinct ids hold every catalog entry once: they are a reordering of the catalog. |
| ClassificationGame.PlaceKeepsListing | components/ClassificationGame.tsx:59-71 | When pool and zones together list the catalog, moving a pooled item into the zone of its own category removes exactly one entry from the pool and keeps pool and zones listing the catalog, with each zone holding only its category. |
| ClassificationGame.Game.InPlayIsCatalog | components/ClassificationGame.tsx:32-39 | In every state the game can reach, the pool and the two zones together are a reordering of the ten catalog items. |
| ClassificationGame.PlaceKeepsPartition | components/ClassificationGame.tsx:59-71 | Moving a pooled item into the zone of its own category keeps that split: no item is lost or duplicated, and each zone holds only its own category. |
| ClassificationGame.Game.constructor | components/ClassificationGame.tsx:32-39 | Mounting takes a reordering of the catalog as the pool, with empty zones, no selection, no feedback and score 0, and establishes the invariant that pool and zones list the catalog. |
| ClassificationGame.Game.Select | components/ClassificationGame.tsx:43-46 | Drag start (or tap, lines 82-84) on an unplaced item makes it the selection and changes nothing else. |
| ClassificationGame.Game.Classify | components/ClassificationGame.tsx:53-111 | Drop or zone tap: no-op without a selection. Otherwise the outcome is correct exactly when the category matches the zone. A correct item leaves the pool (which shrinks by one), is appended to its zone and scores one; a wrong one changes only the feedback. The selection is cleared, a clearing timer is scheduled, and the invariant (counts, distinct ids, zone categories, score = placed items) is kept, including that pool and zones together still list the catalog, so no item is lost or duplicated. |
| ClassificationGame.Game.ClearFeedback | components/ClassificationGame.tsx:79 | One 800 ms timer fires: the feedback is cleared and nothing else changes. |
| ClassificationGame.Game.ResetGame | components/ClassificationGame.tsx:113-119 | Restart refills the pool with a fresh reordering of the catalog, empties both zones and clears score and selection; the feedback and its timers are untouched. |
| ClassificationGame.Game.IsComplete | components/ClassificationGame.tsx:41 | Complete exactly when the pool is empty; the score is always between 0 and 10, and on completion it is 10. |
| QuizScreen.CountCorrect | constants.tsx:79-140 | The number of right answers is at most the number of answers, and equals it exactly when every answer is right. |
| QuizScreen.CountCorrectSnoc | components/Quiz.tsx:26-31 | One more answer adds one right answer to the count exactly when it matches that question's correct id. |
| QuizScreen.ShowResult | components/Quiz.tsx:81-83 | An option shows its result only while checking with a selection, and then exactly when it is the selected or the correct option. |
| QuizScreen.ButtonStyle | components/Quiz.tsx:85-92 | An option is drawn as correct only if it is the correct one while checking, and as wrong only if it is the selected, incorrect one while checking. |
| QuizScreen.CheckedStyles | components/Quiz.tsx:85-92 | While an answer is checked: the correct option is marked correct, a wrong selection is marked wrong, every other option is plain. |
| QuizScreen.QuizSession.constructor | components/Quiz.tsx:12-15 | Mounting: first question, no selection, unlocked, score 0, no timer. |
| QuizScreen.QuizSession.Answer | components/Quiz.tsx:19-41 | While locked, an answer changes nothing. Otherwise the option is selected, the screen locks, a right answer adds one point, and a timer is scheduled that captures the index, the old score and the option. The score stays the count of right answers among the answers given. |
| QuizScreen.QuizSession.Tick | components/Quiz.tsx:33-41 | Before the last question the timer advances the index, clears the selection and unlocks. On the last question it reports a score equal to the number of right answers among all six, and the screen stays locked. |
| App.EdgeEntries | App.tsx:212-243 | The result screen is entered only from the quiz, the quiz only from the mind map, the game only from the result, and the intro only from the mind map, the quiz or the game. |
| App.CharacterMessage | App.tsx:61-70 | The mascot's line is never empty. On the result screen it is the praise exactly when the score is above 5 and the encouragement exactly when it is not; on other screens it is neither. |
| App.CharacterEmotion | App.tsx:72-76 | Excited exactly on the result screen with a score above 5; neutral exactly in the quiz and the game; happy exactly in the other cases. |
| App.ExcitedIffPraised | App.tsx:67-73 | The mascot is excited exactly when it speaks the praise. |
| App.AppController.constructor | App.tsx:46-48 | The shell starts on the intro with score 0, the voice status unknown and no quiz screen mounted yet. |
| App.AppController.VoiceChecked | App.tsx:50-58 | The voice check's answer is recorded; phase and score are unchanged. |
| App.AppController.StartApp | App.tsx:78-82 | Start moves from the intro to the mind map along a flow edge. |
| App.AppController.MindMapComplete | App.tsx:213 | The mind map's completion moves to the quiz and mounts a new quiz screen, one more than before. |
| App.AppController.GoHome | App.tsx:213 | The home button of the mind map, the quiz (line 222) or the game (line 243) returns to the intro along a flow edge; the score is kept. |
| App.AppController.QuizFinishAsWritten | App.tsx:218-221 | The finish callback as wired: store the score and show the result, from whatever phase. |
| App.AppController.QuizFinish | App.tsx:218-221 | The corrected callback: a report from the quiz screen currently shown stores the score and shows the result; a report from an earlier quiz screen, or one arriving in another phase, changes nothing. Every change follows a flow edge. |
| App.AppController.Restart | App.tsx:230-233 | Restart from the result clears the score and shows the mind map. |
| App.AppController.PlayGame | App.tsx:234 | Play from the result shows the game. |
| App.AppController.GameComplete | App.tsx:240-242 | The game's completion returns to the intro. |
| App.StaleQuizTimer | components/Quiz.tsx:33-41 | Answer all six questions and press home during the last feedback. The uncancelled timer still reports, and as wired the shell jumps from the intro to the result, which no flow edge allows; with the guard the shell stays on the intro. |
| App.StaleTimerAfterReentry | components/Quiz.tsx:33-41 | Answer all six questions, press home, start again and open a new quiz within two seconds. As wired, the old report pulls the shell out of the new quiz onto the result screen and stores the old quiz's score (2, for answers all `A`); with the mount check the new quiz stays on screen and the stored score stays 0. |
| AudioUtils.IncludesAt | utils/audioUtils.ts:26 | The substring test holds exactly when the piece starts at some position of the string. |
| AudioUtils.FindFirst | utils/audioUtils.ts:70-73 | `find` returns the first position whose voice satisfies the test, and none exactly when no voice does. |
| AudioUtils.ChooseVoice | utils/audioUtils.ts:70-73 | A chosen voice comes from the list; which one it is, level by level, is stated by `GoogleFirst`, `VietVNSecond` and `ViThird`. |
| AudioUtils.ChosenIsVietnamese | utils/audioUtils.ts:70-73 | A chosen voice always has a language containing "vi". |
| AudioUtils.GoogleFirst | utils/audioUtils.ts:71 | When some voice is a Google Vietnamese one, the first such voice is chosen. |
| AudioUtils.VietVNSecond | utils/audioUtils.ts:72 | With no Google Vietnamese voice, the first `vi-VN` voice is chosen. |
| AudioUtils.ViThird | utils/audioUtils.ts:73 | With neither a Google Vietnamese nor a `vi-VN` voice, the first voice whose language contains "vi" is chosen. |
| AudioUtils.NoneIffNoVietnamese | utils/audioUtils.ts:73-77 | No voice is chosen exactly when no voice's language contains "vi", the same test the voice check uses. |
| AudioUtils.VoiceCache.constructor | utils/audioUtils.ts:15-20 | Module initialisation loads the voices when speech exists, marks them loaded only if non-empty, and installs the reload handler where the platform has the event. |
| AudioUtils.VoiceCache.LoadVoices | utils/audioUtils.ts:5-12 | Reloading replaces the cache with the platform list when speech exists; the cache becomes loaded once a non-empty list is seen, and never becomes unloaded. |
| AudioUtils.VoiceCache.CheckVietnameseVoice | utils/audioUtils.ts:22-54 | A loaded, non-empty cache answers at once. Otherwise, with speech, a non-empty platform list is cached and answers at once. An empty list arms the timeout and installs the check's own handler. Without speech the answer is no. Every immediate answer is whether some voice speaks Vietnamese. |
| AudioUtils.VoiceCache.VoicesChanged | utils/audioUtils.ts:44-49 | The voices-changed event: the reload handler (line 18) reloads. The check's handler caches the list, marks it loaded even if empty, and settles a waiting check with whether some voice speaks Vietnamese; a settled check is not settled again. |
| AudioUtils.VoiceCache.CheckTimeout | utils/audioUtils.ts:42 | The two-second timeout settles a waiting check with no and leaves the cache alone. |
| AudioUtils.VoiceCache.Speak | utils/audioUtils.ts:56-80 | Without speech nothing is spoken and the cache is unchanged. With speech an empty cache is reloaded (lines 66-68), becoming loaded if the platform list is non-empty, and the voice is the preference choice over the cache as it then stands; a chosen voice speaks Vietnamese. |

## Left out

- ClassificationGame.Game.constructor and ResetGame take the shuffle as a parameter
  that lists the ten catalog items once each, which by `ListsCatalogIff` is exactly a
  reordering of the catalog. The randomness of
  `sort(() => Math.random() - 0.5)` and its (non-uniform) distribution are not modelled.
- ClassificationGame.Item: the glyph and the label of each item are presentation only
  and are not kept.
- Drag-over handling, drag images, CSS, layout and the completion panel's animation
  are rendering and are not modelled.
- The calls to `speak(...)` and `playSound(...)` are not modelled where they are made:
  in the game's and the quiz's handlers, in the quiz's effect that reads each new
  question aloud (`components/Quiz.tsx:45-47`), in the mind map's node click
  (`components/MindMap.tsx:136-140`), in the result screen's mount effect
  (`components/Result.tsx:15-22`), in the shell's `startApp` (`App.tsx:79-81`) and in
  its voice-test button (`App.tsx:84-86`, which does nothing else). Each `speak` there
  can reload an empty voice cache. That effect is modelled
  once, by `AudioUtils.VoiceCache.Speak`, but none of these callers invokes it; the
  sound itself is output. `playSound`'s tone
  synthesis uses the Web Audio API and floating point, and is not modelled.
- AudioUtils.VoiceCache.Speak: `speechSynthesis.cancel()`, the utterance's text,
  `lang`, and its floating-point `rate` 0.9 and `pitch` 1.1 are calls into the
  platform; only the chosen voice is modelled.
- AudioUtils.VoiceCache.CheckVietnameseVoice requires that no earlier check is still
  waiting. The shell starts exactly one check, and overlapping checks, which would
  replace each other's handler, are not modelled.
- Timer durations (800 ms, 2000 ms) are not modelled, only which pending callbacks
  exist; the fire order of timers is chosen by the caller.
- React's batching of state updates is taken as applying each handler's updates
  together, in the order written.
- QuizScreen: question texts and option labels are not modelled; the options are
  the datatype `Choice` with constructors `A`, `B`, `C` (the ids `"A"`, `"B"`, `"C"`), and what is kept of
  each question is its correct id.
- The mind map and result components (`components/MindMap.tsx`,
  `components/Result.tsx`) only render, play sounds, speak and call back, and the
  mascot (`components/Character.tsx`) only renders; their callbacks are modelled on
  the shell's side, and their sounds and speech are the calls listed above. The shell's decorative
  `FloatingParticles` background and the intro screen's layout are rendering only.
- The shell's console logging of the voice check is output and is not modelled.

## Findings

| source | as written | input that shows it | evidently intended | confidence | as-written member | corrected member |
|---|---|---|---|---|---|---|
| components/Quiz.tsx:33-41 with App.tsx:218-222 | The quiz's 2000 ms timer is never cancelled, and the shell's finish callback shows the result from any phase. | Answer all six questions, then press home while the last answer's feedback is shown: two seconds later the shell jumps from the intro to the result screen. | A finish report that arrives when the quiz is no longer the current phase is ignored. | not executed | App.AppController.QuizFinishAsWritten (shown by App.StaleQuizTimer) | App.AppController.QuizFinish |
| components/Quiz.tsx:33-41 with App.tsx:200-222 | The same uncancelled timer also reaches a later quiz screen: a check of the phase alone cannot tell the old quiz from a new one. | Answer all six questions, press home, press start and open the quiz from the mind map, all within two seconds: the old report moves the shell from the new quiz to the result screen with the old score. | Only the report of the quiz screen currently shown is honoured. | not executed | App.AppController.QuizFinishAsWritten (shown by App.StaleTimerAfterReentry) | App.AppController.QuizFinish |
