# Mitra Mind component logic in Dafny

Mitra Mind is a React front end for mental-wellness support. Most of it is markup. This project models the part that has behaviour:

- the chat widget's keyword classifier and its transcript;
- the breathing timer;
- the wellbeing trivia quiz;
- the memory-match game;
- the mood tracker;
- the colour-therapy palette;
- the translation lookup `t`.

Each component is a Dafny module. The stateful components (Chat, Breathing, Trivia, Memory, Mood and Palette) share one shape:
- an immutable state datatype;
- one pure step function per event handler or effect;
- a `Valid` predicate describing the reachable states, with lemmas that every event preserves it. In Memory these are the events of the corrected game: the app's own reset, `Memory.InitializeAsWritten`, does not preserve `Memory.Valid` (see "## Findings");
- lemmas stating the component's behavioural promises.

Two shared modules support them. `Wrappers` provides `Option`. `Text` provides:
- ASCII lower-casing;
- substring search, proved equal to a reference "occurs somewhere" definition;
- ECMAScript `trim`;
- the `Math.floor(Math.random() * n)` index idiom.

`Math.random()` is a real parameter `r` with `0 <= r < 1`. React's delayed callbacks are explicit events:
- the 1500 ms chat reply is `Chat.Deliver`;
- the 1000 ms breathing interval is `Breathing.Tick`;
- the 1000 ms pair resolution is `Memory.Resolve`.

The chat reply and the pair resolution are queued in the state, so each firing is a step of its own. The breathing interval is not queued: every elapsed second is one `Breathing.Second`, the tick followed by the effect acting on a zero at once. The `I18n` module has no state to keep valid; it models the translation tables and the `t` lookup.

Two consequences of the code:
- **Changing the breathing pattern.** The button's `resetBreathing` closure was created in the previous render. It therefore loads the *previous* pattern's inhale duration, not the new one (`Breathing.SelectPattern`, `Breathing.SelectUsesPreviousInhale`).
- **Twelve seconds of box breathing from the start.** This ends at inhale with 4 seconds left and one cycle counted. The zero reached by the last tick is acted on at once by the effect (`Breathing.TwelveSecondsOfBox`).

## Model

| member | source | states |
|---|---|---|
| Text.Lower | mithra-main/mithra-main/src/components/ChatInterface.tsx:29 | `toLowerCase` keeps the length and lower-cases each character (ASCII letters) |
| Text.LowerIdempotent | mithra-main/mithra-main/src/components/ChatInterface.tsx:29 | lower-casing a lower-cased text changes nothing |
| Text.LowerOfUpper | mithra-main/mithra-main/src/components/ChatInterface.tsx:29 | upper-casing before lower-casing gives the same text as lower-casing alone |
| Text.Contains | mithra-main/mithra-main/src/components/ChatInterface.tsx:32 | `includes`, scanning from the left, is true exactly when the keyword occurs as a contiguous block at some position (both directions, against the reference definition `Occurs`) |
| Text.OccursStep | mithra-main/mithra-main/src/components/ChatInterface.tsx:32 | the keyword occurs in a text exactly when it is at the front or occurs in the text after the first character, which is the step the scan takes |
| Text.ContainsInfix | mithra-main/mithra-main/src/components/ChatInterface.tsx:32 | a keyword with any text around it is found |
| Text.TrimStart | mithra-main/mithra-main/src/components/ChatInterface.tsx:100 | the removed prefix is all whitespace and the remainder does not start with whitespace |
| Text.TrimEnd | mithra-main/mithra-main/src/components/ChatInterface.tsx:100 | the removed suffix is all whitespace and the remainder does not end with whitespace |
| Text.Trim | mithra-main/mithra-main/src/components/ChatInterface.tsx:100 | `trim` returns the block of `s` between an all-whitespace prefix and an all-whitespace suffix; a non-empty result starts and ends with a non-space; the result is empty exactly when `s` is all whitespace |
| Text.BlankIffAllSpace | mithra-main/mithra-main/src/components/ChatInterface.tsx:100 | `IsBlank`, the test `!s.trim()`, holds exactly when every character of `s` is whitespace |
| Text.FloorIndex | mithra-main/mithra-main/src/components/ChatInterface.tsx:38 | `Math.floor(r * n)` with `r` in [0,1) is an index below `n` and is the floor of `r * n` |
| Text.Pick | mithra-main/mithra-main/src/components/ChatInterface.tsx:38 | the random pick is always an element of the pool |
| Text.PickCovers | mithra-main/mithra-main/src/components/ChatInterface.tsx:38 | every element of the pool is picked for some random value |
| Chat.GroupMatchesIffOccurs | mithra-main/mithra-main/src/components/ChatInterface.tsx:32-79 | a keyword group's chain of `includes` tests is true exactly when one of its keywords occurs in the text |
| Chat.Classify | mithra-main/mithra-main/src/components/ChatInterface.tsx:28-91 | the chosen category has a keyword in the lower-cased text, and no category tested earlier does |
| Chat.ClassifyIsFirstMatch | mithra-main/mithra-main/src/components/ChatInterface.tsx:32-90 | both directions: the category is `c` exactly when `c` is the first group in the order sad, anxious, happy, tired, angry with a match, or no group matches and `c` is the default |
| Chat.ClassifyCaseInsensitive | mithra-main/mithra-main/src/components/ChatInterface.tsx:29 | two messages with the same lower-cased text get the same category |
| Chat.ClassifyIgnoresUpperCase | mithra-main/mithra-main/src/components/ChatInterface.tsx:29 | upper-casing or lower-casing the message does not change its category |
| Chat.KeywordsAreLower | mithra-main/mithra-main/src/components/ChatInterface.tsx:32-72 | every keyword is written in lower case, so it can match after lower-casing |
| Chat.KeywordInsideWord | mithra-main/mithra-main/src/components/ChatInterface.tsx:32 | a keyword embedded inside a longer word still triggers its group or an earlier one |
| Chat.DownloadIsSad | mithra-main/mithra-main/src/components/ChatInterface.tsx:32 | "download" is classified sad because it contains "down" |
| Chat.SadKeywordWins | mithra-main/mithra-main/src/components/ChatInterface.tsx:32-39 | any sad keyword, in any letter case, gives a reply from the 3-item sad pool whatever else the message contains |
| Chat.EarlierGroupWins | mithra-main/mithra-main/src/components/ChatInterface.tsx:32-79 | when two groups both match, the later-tested one is never chosen |
| Chat.NoKeywordGetsDefault | mithra-main/mithra-main/src/components/ChatInterface.tsx:82-90 | a message with no keyword of any group gets a reply from the 5-item default pool |
| Chat.Pool | mithra-main/mithra-main/src/components/ChatInterface.tsx:33-88 | each category's pool has 3 replies (5 for the default), listed by position |
| Chat.Reply | mithra-main/mithra-main/src/components/ChatInterface.tsx:38 | the reply is a member of the pool of the message's category |
| Chat.SetInput | mithra-main/mithra-main/src/components/ChatInterface.tsx:201 | typing changes only the input box |
| Chat.Send | mithra-main/mithra-main/src/components/ChatInterface.tsx:99-112 | blank input leaves the state unchanged; otherwise exactly one user message with the input text is appended, the input is cleared, typing is shown and a reply to that text is queued |
| Chat.Deliver | mithra-main/mithra-main/src/components/ChatInterface.tsx:114-123 | the oldest queued reply appends exactly one bot message drawn from the pool of that text's category, keeps all earlier messages, and clears typing |
| Chat.UserTexts | mithra-main/mithra-main/src/components/ChatInterface.tsx:109-123 | every transcript message is either a user text or a bot reply: the user texts and the bot count add up to the transcript's length |
| Chat.UserTextsAppend | mithra-main/mithra-main/src/components/ChatInterface.tsx:109 | appending a message adds its text to the user texts exactly when it is from the user |
| Chat.InitialValid | mithra-main/mithra-main/src/components/ChatInterface.tsx:16-23 | the transcript starts with the single greeting and nothing queued |
| Chat.SendStep | mithra-main/mithra-main/src/components/ChatInterface.tsx:101-112 | appending a non-blank user message and scheduling a reply to its text keeps the queued texts equal to the latest unanswered user messages |
| Chat.DeliverStep | mithra-main/mithra-main/src/components/ChatInterface.tsx:114-123 | appending one bot message while dropping the oldest scheduled text keeps one bot answer per answered user message |
| Chat.SendPreservesValid | mithra-main/mithra-main/src/components/ChatInterface.tsx:99-112 | a send keeps the transcript invariant (greeting first, user messages non-blank, queued texts are the latest unanswered user messages) and only extends the transcript |
| Chat.DeliverPreservesValid | mithra-main/mithra-main/src/components/ChatInterface.tsx:114-123 | a delivered reply keeps the invariant (one bot answer per user message once its reply fires) and only extends the transcript |
| Chat.SetInputPreservesValid | mithra-main/mithra-main/src/components/ChatInterface.tsx:201 | typing keeps the transcript invariant |
| Breathing.Tick | mithra-main/mithra-main/src/components/games/BreathingGame.tsx:25-28 | while active with time left, one second takes exactly 1 off `timeLeft` and changes nothing else; otherwise nothing changes |
| Breathing.Second | mithra-main/mithra-main/src/components/games/BreathingGame.tsx:22-45 | one second of wall time: a paused timer stays as it is; a running one counts down by one, or from its last second goes straight to the next phase with that phase's full duration, adding a cycle only when an exhale ends |
| Breathing.Advance | mithra-main/mithra-main/src/components/games/BreathingGame.tsx:29-41 | at zero while active, the phase moves on and loads its duration from the pattern; the cycle count rises only on the exhale-to-inhale wrap |
| Breathing.Start | mithra-main/mithra-main/src/components/games/BreathingGame.tsx:47-53 | start activates and keeps phase and time left, unless time left is 0, in which case it restarts at inhale with the inhale duration |
| Breathing.Pause | mithra-main/mithra-main/src/components/games/BreathingGame.tsx:55-57 | pause clears only the active flag |
| Breathing.Reset | mithra-main/mithra-main/src/components/games/BreathingGame.tsx:59-64 | reset gives inactive, inhale, cycle 0 and the inhale duration of the pattern in use |
| Breathing.SelectPattern | mithra-main/mithra-main/src/components/games/BreathingGame.tsx:113-116 | the new key is stored but the countdown holds the previous pattern's inhale duration |
| Breathing.Presets | mithra-main/mithra-main/src/components/games/BreathingGame.tsx:13-18 | the four presets have durations (4,4,4), (4,7,8), (6,2,6) and (5,5,5), all positive, with distinct keys |
| Breathing.InitValid | mithra-main/mithra-main/src/components/games/BreathingGame.tsx:7-11 | the initial state is valid, inactive at inhale with 4 seconds (the box inhale), cycle 0 and pattern label '4-4-4' |
| Breathing.EventsPreserveValid | mithra-main/mithra-main/src/components/games/BreathingGame.tsx:22-64 | every event keeps the time left between 1 and 8 and the cycle count non-negative; the countdown never goes negative |
| Breathing.InactiveIsFrozen | mithra-main/mithra-main/src/components/games/BreathingGame.tsx:25-29 | while inactive, any number of seconds changes nothing |
| Breathing.PauseThenStart | mithra-main/mithra-main/src/components/games/BreathingGame.tsx:47-57 | pausing and resuming returns to exactly the running state |
| Breathing.SecondSteps | mithra-main/mithra-main/src/components/games/BreathingGame.tsx:22-45 | one second either counts down by one or completes the phase and loads the next one's duration; the cycle count rises by one only when an exhale ends |
| Breathing.RunAdd | mithra-main/mithra-main/src/components/games/BreathingGame.tsx:22-45 | running a+b seconds is running a seconds, then b seconds |
| Breathing.Countdown | mithra-main/mithra-main/src/components/games/BreathingGame.tsx:25-41 | a phase with t seconds left counts down for t seconds and then advances |
| Breathing.FullCycle | mithra-main/mithra-main/src/components/games/BreathingGame.tsx:29-41 | from the start of an inhale, one period of the pattern returns to the same state with one more cycle |
| Breathing.TwelveSecondsOfBox | mithra-main/mithra-main/src/components/games/BreathingGame.tsx:7-18 | twelve seconds of box breathing from the start end at inhale, 4 seconds left, cycle 1 |
| Breathing.SelectUsesPreviousInhale | mithra-main/mithra-main/src/components/games/BreathingGame.tsx:20 | switching from box to calming loads 4 seconds instead of 6, and the first inhale runs 4 seconds before the calming hold of 2 |
| Breathing.ResetRestores | mithra-main/mithra-main/src/components/games/BreathingGame.tsx:59-64 | reset depends only on the pattern and is idempotent |
| Trivia.Answer | mithra-main/mithra-main/src/components/games/MoodTrivia.tsx:65-72 | an answer records the choice and shows the result; the score rises by 1 exactly when the choice is the correct index; clicks are ignored while a result is shown |
| Trivia.Next | mithra-main/mithra-main/src/components/games/MoodTrivia.tsx:74-82 | advances with the selection cleared, or on the last question marks the game complete and stays on it |
| Trivia.Reset | mithra-main/mithra-main/src/components/games/MoodTrivia.tsx:84-90 | back to question 0 with no selection, score 0 and both flags false |
| Trivia.Message | mithra-main/mithra-main/src/components/games/MoodTrivia.tsx:92-98 | with five questions, a score of 4 or more (80% or more) is excellent, 3 (60%) great, 2 (40%) good effort, and 1 or 0 every step, for every score |
| Trivia.InitValid | mithra-main/mithra-main/src/components/games/MoodTrivia.tsx:16-20 | the initial quiz state is reachable-consistent |
| Trivia.EventsPreserveValid | mithra-main/mithra-main/src/components/games/MoodTrivia.tsx:65-90 | every event keeps the index on a question, the score at most the questions answered, and completion only on the last question |
| Trivia.ScoreBounded | mithra-main/mithra-main/src/components/games/MoodTrivia.tsx:69-71 | the score never exceeds the number of questions answered, which is at most 5 |
| Trivia.AnswerOncePerQuestion | mithra-main/mithra-main/src/components/games/MoodTrivia.tsx:152 | a second answer to the same question changes nothing, so one answer counts per question |
| Trivia.MessageTable | mithra-main/mithra-main/src/components/games/MoodTrivia.tsx:92-98 | scores 5 and 4 are excellent, 3 great, 2 good effort, 1 and 0 every step |
| Trivia.MessageMonotone | mithra-main/mithra-main/src/components/games/MoodTrivia.tsx:92-98 | a higher score never earns a lower message |
| Trivia.PerfectRun | mithra-main/mithra-main/src/components/games/MoodTrivia.tsx:22-98 | answering 1,1,1,0,2 completes the quiz with score 5 and the top message |
| Memory.Deal | mithra-main/mithra-main/src/components/games/MemoryGame.tsx:26-31 | card i has id i, the emoji the shuffle put at i, and is face down and unmatched |
| Memory.Initialize | mithra-main/mithra-main/src/components/games/MemoryGame.tsx:22-38 | 16 cards with ids 0..15, each emoji exactly twice, none flipped or matched, moves 0, flipping enabled, nothing pending |
| Memory.InitializeAsWritten | mithra-main/mithra-main/src/components/games/MemoryGame.tsx:22-38 | the reset as written: everything reset except the scheduled resolutions, which survive |
| Memory.DealHasPairs | mithra-main/mithra-main/src/components/games/MemoryGame.tsx:20-31 | every shuffle deals each of the 8 emojis on exactly two cards |
| Memory.DoubledIndex | mithra-main/mithra-main/src/components/games/MemoryGame.tsx:23 | entry v of the doubled list is emoji k exactly when v is k or k+8 |
| Memory.DealAtMostTwo | mithra-main/mithra-main/src/components/games/MemoryGame.tsx:23-31 | no emoji is dealt on three cards |
| Memory.FindCard | mithra-main/mithra-main/src/components/games/MemoryGame.tsx:88 | `find` returns a card with that id, or none when no card has it |
| Memory.FindCardIsFirst | mithra-main/mithra-main/src/components/games/MemoryGame.tsx:88 | `find` returns the first card with the id: no card before it has that id |
| Memory.FindInValid | mithra-main/mithra-main/src/components/games/MemoryGame.tsx:48-49 | in a dealt deck, the card with id i is card i, and out-of-range ids are not found |
| Memory.Update | mithra-main/mithra-main/src/components/games/MemoryGame.tsx:54-58 | the `map` rewrites exactly the cards with the two ids and keeps the rest |
| Memory.CheckComplete | mithra-main/mithra-main/src/components/games/MemoryGame.tsx:78-83 | the flag is raised once a non-empty deck is all matched, and nothing else changes |
| Memory.PairEffect | mithra-main/mithra-main/src/components/games/MemoryGame.tsx:44-76 | with two cards pending, flipping is disabled, moves rise by 1 and one resolution is scheduled; otherwise nothing changes |
| Memory.ResolutionFor | mithra-main/mithra-main/src/components/games/MemoryGame.tsx:47-51 | the scheduled resolution names the two pending ids in turn order; in a deck where card `i` has id `i`, it reports a match exactly when the two pending cards have the same emoji |
| Memory.Click | mithra-main/mithra-main/src/components/games/MemoryGame.tsx:85-95 | clicks are ignored while flipping is disabled, on a pending card, or on a flipped or matched card |
| Memory.ClickTurnsOneCard | mithra-main/mithra-main/src/components/games/MemoryGame.tsx:91-94 | an accepted click turns up that card only, appends its id, and on the second card adds a move and disables flipping |
| Memory.Resolve | mithra-main/mithra-main/src/components/games/MemoryGame.tsx:51-72 | the pair is marked matched if the emojis agreed and turned down otherwise; pending is cleared, flipping re-enabled, no other card changes |
| Memory.SameFacesWellDealt | mithra-main/mithra-main/src/components/games/MemoryGame.tsx:54-58 | changing only the flipped and matched flags keeps the deck well dealt |
| Memory.InitializeValid | mithra-main/mithra-main/src/components/games/MemoryGame.tsx:22-38 | a fresh game satisfies the invariant |
| Memory.ClickPreservesValid | mithra-main/mithra-main/src/components/games/MemoryGame.tsx:85-95 | a click on any card keeps the invariant: the face-up unmatched cards are exactly the pending ones, and one resolution is scheduled iff two are pending |
| Memory.ResolveKeepsPairs | mithra-main/mithra-main/src/components/games/MemoryGame.tsx:51-58 | resolution keeps cards of equal emoji matched together or not at all |
| Memory.ResolveClearsPending | mithra-main/mithra-main/src/components/games/MemoryGame.tsx:59-71 | after resolution no card is face up and unmatched, nothing is pending and no timer is left |
| Memory.ResolvePreservesValid | mithra-main/mithra-main/src/components/games/MemoryGame.tsx:51-83 | the resolution keeps the whole invariant, including the completion flag being exactly "all matched" |
| Memory.MatchedStaysMatched | mithra-main/mithra-main/src/components/games/MemoryGame.tsx:56 | no click or resolution unmatches a card |
| Memory.CompleteMeansAllMatched | mithra-main/mithra-main/src/components/games/MemoryGame.tsx:79-81 | in a reachable game, complete holds exactly when all 16 cards are matched |
| Memory.InitializeAgreesWhenIdle | mithra-main/mithra-main/src/components/games/MemoryGame.tsx:22-38 | with no resolution scheduled, the as-written reset equals the corrected one |
| Memory.TurnFirstPair | mithra-main/mithra-main/src/components/games/MemoryGame.tsx:44-53 | turning the two cards of the first emoji schedules one matching resolution |
| Memory.ResetDuringResolutionBreaksPairs | mithra-main/mithra-main/src/components/games/MemoryGame.tsx:44-76 | a reset inside the one-second delay lets the old timer mark two cards with different emojis matched, stranding a card whose partner is matched |
| Mood.FindOption | mithra-main/mithra-main/src/components/MoodTracker.tsx:37 | `find` returns an option with that name, or none when no option has it |
| Mood.FindIsFirst | mithra-main/mithra-main/src/components/MoodTracker.tsx:37 | `find` returns the first option with the name: no option before it has that name |
| Mood.FindSelected | mithra-main/mithra-main/src/components/MoodTracker.tsx:18-26 | looking up a button's own name finds that button's option |
| Mood.OptionNamesDistinct | mithra-main/mithra-main/src/components/MoodTracker.tsx:18-26 | the seven option names are distinct and non-empty |
| Mood.SelectMood | mithra-main/mithra-main/src/components/MoodTracker.tsx:69 | a mood button selects its option's name and changes nothing else |
| Mood.SetIntensity | mithra-main/mithra-main/src/components/MoodTracker.tsx:82-92 | an intensity button (1..5) sets the intensity and changes nothing else |
| Mood.SetNote | mithra-main/mithra-main/src/components/MoodTracker.tsx:102-105 | typing sets the note and changes nothing else |
| Mood.Save | mithra-main/mithra-main/src/components/MoodTracker.tsx:34-52 | with no mood selected nothing happens; otherwise the entry (mood, intensity, note, option colour) goes in front of the history, the older entries follow in order, and the form resets to "", 3, "" |
| Mood.Recent | mithra-main/mithra-main/src/components/MoodTracker.tsx:125 | the view holds the first min(5, n) entries of the history |
| Mood.InitValid | mithra-main/mithra-main/src/components/MoodTracker.tsx:29-32 | the initial form (no mood, intensity 3, empty note, empty history) is valid and shows no history |
| Mood.SaveNeverThrows | mithra-main/mithra-main/src/components/MoodTracker.tsx:37 | in a reachable state the non-null lookup always succeeds, so a save always records the selected mood |
| Mood.EventsPreserveValid | mithra-main/mithra-main/src/components/MoodTracker.tsx:29-52 | every event keeps the intensity in 1..5, the selection empty or an option name, and every saved entry well formed |
| Mood.SaveTwiceSavesOnce | mithra-main/mithra-main/src/components/MoodTracker.tsx:34-52 | a second save right after a save does nothing, since the form was cleared |
| Mood.SaveStep | mithra-main/mithra-main/src/components/MoodTracker.tsx:48 | saving a filled-in form prepends exactly its entry |
| Mood.SaveRecords | mithra-main/mithra-main/src/components/MoodTracker.tsx:37-48 | the entry a filled-in save prepends is the form's mood, intensity and note with its option's colour (`EntryOf`) |
| Mood.HistoryNewestFirst | mithra-main/mithra-main/src/components/MoodTracker.tsx:48 | after a run of saves the history lists their whole entries (mood, intensity, note, colour) newest first, so saves of the same mood keep their order, followed by the earlier history unchanged |
| Mood.ReversedEntries | mithra-main/mithra-main/src/components/MoodTracker.tsx:48 | prepending one more entry shifts the newest-first order of the entries by one |
| Mood.RecentAfterSave | mithra-main/mithra-main/src/components/MoodTracker.tsx:48-125 | after a save the view shows the new entry first, then the previously shown entries, at most five in all |
| Palette.LookupTotal | mithra-main/mithra-main/src/components/games/ColorTherapyGame.tsx:21-62 | looking a mood up by its key string finds that mood again, so the `affirmations[color.mood]` lookup is total and no two moods share a key |
| Palette.AllListed | mithra-main/mithra-main/src/components/games/ColorTherapyGame.tsx:10-19 | the colour table lists each of the eight swatches exactly once |
| Palette.ColorOf | mithra-main/mithra-main/src/components/games/ColorTherapyGame.tsx:10-19 | the colour with a given swatch value, or none when no colour has it |
| Palette.ValueInjective | mithra-main/mithra-main/src/components/games/ColorTherapyGame.tsx:10-19 | two colours with the same swatch value are the same colour |
| Palette.ValuesDistinct | mithra-main/mithra-main/src/components/games/ColorTherapyGame.tsx:10-19 | every swatch value looks up its own colour again, so the drawn values identify the colours picked |
| Palette.Pool | mithra-main/mithra-main/src/components/games/ColorTherapyGame.tsx:21-62 | each mood's pool holds its three affirmations in order |
| Palette.AffirmationsNonEmpty | mithra-main/mithra-main/src/components/games/ColorTherapyGame.tsx:21-62 | no affirmation text is the empty string |
| Palette.SelectColor | mithra-main/mithra-main/src/components/games/ColorTherapyGame.tsx:64-72 | the colour goes after the earlier selection, and an affirmation from that colour's mood pool is shown |
| Palette.SelectAppendsValue | mithra-main/mithra-main/src/components/games/ColorTherapyGame.tsx:65-66 | on screen, a pick appends exactly the colour's swatch value to the drawn values |
| Palette.ClearCanvas | mithra-main/mithra-main/src/components/games/ColorTherapyGame.tsx:74-77 | clearing empties the selection and removes the affirmation |
| Palette.SelectionsAppend | mithra-main/mithra-main/src/components/games/ColorTherapyGame.tsx:64-72 | a run of selections keeps the earlier palette as a prefix, appends the chosen colours in order, and shows an affirmation of the last one's mood |
| Palette.EveryAffirmationReachable | mithra-main/mithra-main/src/components/games/ColorTherapyGame.tsx:68-70 | every affirmation of the colour's pool can be the one shown |
| Palette.InitValid | mithra-main/mithra-main/src/components/games/ColorTherapyGame.tsx:7-8 | initially the palette is empty and the affirmation text is "" |
| Palette.ShownIffPicked | mithra-main/mithra-main/src/components/games/ColorTherapyGame.tsx:8 | in a reachable state, the affirmation text is non-empty exactly when the palette is non-empty |
| Palette.MoodFromLastValue | mithra-main/mithra-main/src/components/games/ColorTherapyGame.tsx:64-70 | the mood of the affirmation shown is the mood of the colour whose value was drawn last |
| Palette.EventsPreserveValid | mithra-main/mithra-main/src/components/games/ColorTherapyGame.tsx:64-77 | an affirmation is shown exactly when the palette is non-empty, and it comes from the mood of the last colour picked |
| I18n.Entry | mithra-main/mithra-main/src/pages/Index.tsx:30 | the table entry of a key in a locale, present exactly when both exist |
| I18n.Translate | mithra-main/mithra-main/src/pages/Index.tsx:29-31 | the locale's entry when it is a non-empty string; otherwise the English entry |
| I18n.TranslateIsOverlay | mithra-main/mithra-main/src/pages/Index.tsx:30 | the lookup equals reading the English table overlaid with the locale's non-empty entries |
| I18n.NonBlank | mithra-main/mithra-main/src/pages/Index.tsx:30 | the entries the `||` keeps: exactly the non-empty ones |
| I18n.EnglishIsIdentity | mithra-main/mithra-main/src/pages/Index.tsx:27-30 | with English selected, the lookup is the English table itself |
| I18n.NeverBlankWithEnglish | mithra-main/mithra-main/src/pages/Index.tsx:30 | when English has a non-empty string, every locale yields a non-empty string, its own or the English one |
| I18n.EmptyEntryFallsBack | mithra-main/mithra-main/src/pages/Index.tsx:30 | an empty locale entry is replaced by the English one; filling it in makes the locale's own text win |
| I18n.CompleteNeverFallsBack | mithra-main/mithra-main/src/pages/Index.tsx:30 | with every entry present and non-empty, each locale reads its own table |
| I18n.ShippedEntry | mithra-main/mithra-main/src/lib/i18n.ts:35-107 | every shipped entry is present and non-empty |
| I18n.ShippedComplete | mithra-main/mithra-main/src/lib/i18n.ts:1-33 | en, es and fr each define every key of `Translations` |
| I18n.T | mithra-main/mithra-main/src/pages/Index.tsx:29-31 | over the shipped tables, `t` always returns the current locale's own non-empty string |
| I18n.InitialLookupIsEnglish | mithra-main/mithra-main/src/pages/Index.tsx:27 | the provider starts in English, so the first lookups read the English table |
| I18n.SetLanguage | mithra-main/mithra-main/src/pages/Index.tsx:27 | the language switch sets the current language |

## Left out

- Rendering, CSS classes and icons are not modelled. This covers `getPhaseColor`, `getPhaseInstruction`, the scroll effect, badges, the question and explanation texts, and the option labels.
- Timers are not modelled as time. Each delayed callback is one queued event (`Chat.Deliver`, `Memory.Resolve`); the breathing interval is one `Breathing.Tick` per second. The queue fires oldest first; overlapping timers that fire out of order are not modelled.
- Batching of state updates is assumed, as React 18 does it. The setters called inside one callback are applied together: the three in the resolution timeout (MemoryGame.tsx lines 54-71) are the single step `Memory.Resolve`, and those of a click are the single step `Memory.Click`. A click and the pair effect it triggers (lines 44-49) are also one step, since `Memory.Click` runs `Memory.PairEffect` on its result. Unbatched rendering, where an intermediate render could fire that effect a second time, is not modelled.
- `Date.now()` message and entry ids, `Date` timestamps and icon components are left out of the records.
- Memory.IsShuffle: the `sort(() => Math.random() - 0.5)` shuffle is any permutation. How evenly it spreads is not modelled.
- Text.Lower: `toLowerCase` is modelled on ASCII letters only. All keywords are ASCII. The only non-ASCII characters whose lower case contains an ASCII letter are U+212A (Kelvin sign, to `k`) and U+0130 (to `i` followed by U+0307). Neither can complete a keyword: no keyword has a `k`, and the combining mark would break any `i`.
- Trivia.Message: the score percentage is a floating-point division. It is replaced by exact integer comparisons `score * 100 >= k * 5`, which agree on every score 0..5.
- Trivia.Answer: clicks while a result is shown or after completion are ignored. In the app these buttons are disabled or not rendered, so such clicks never reach the handler. The choice is any natural number; the app renders four options per question, and a choice that is not the correct index simply scores nothing.
- Trivia.Next: it is acted on only while a result is shown and the game is not complete. Its button exists only then; the handler itself has no such guard.
- Chat.Send: the send button is disabled while typing, but the Enter key calls the handler regardless. The model therefore allows several queued replies and does not assume the button guard.
- Mood.Save: the case where the option lookup finds nothing is modelled as "state unchanged", standing for the thrown error. `Mood.SaveNeverThrows` shows this cannot happen in a reachable state.
- Palette.SelectColor: the palette holds the colours picked rather than their hex strings, and the affirmation on display is a (mood, position) reference rather than its text. `Palette.Values` and `Palette.Shown` give the strings the app stores; `Palette.ValuesDistinct` and `Palette.AffirmationsNonEmpty` show that no information is lost and that "" still means "nothing shown".
- I18n: the provider context plumbing (`useLanguage`, `LanguageSwitch`) is reduced to `I18n.SetLanguage`.
- `MentalHealthDashboard.tsx`, `ResourcesLibrary.tsx` and `Games.tsx` are not part of this model: they display static data or switch tabs.

## Findings

| source | as written | input that shows it | evidently intended | confidence | as-written member | corrected member |
|---|---|---|---|---|---|---|
| mithra-main/mithra-main/src/components/games/MemoryGame.tsx:44-76 | the pair effect schedules its 1000 ms resolution without a cleanup, and `initializeGame` (lines 22-38) does not cancel it, so a reset inside that second lets the old timer mark the ids of the old pair on the new deck | deck in list order; turn cards 0 and 8 (the first emoji twice); press Reset within the second with a shuffle that swaps positions 1 and 8; cards 0 and 8 of the new deck (different emojis) become matched while card 1, the partner of card 0, stays unmatched and can never be paired | a reset discards any pending resolution, so matched cards always come in pairs | not executed | Memory.ResetDuringResolutionBreaksPairs | Memory.InitializeValid |
