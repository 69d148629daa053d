# chordy core in Dafny

A model of the core of chordy, a Go terminal trainer for recognising notes,
chords and scales on a MIDI keyboard. The model covers three pieces of the
program, each a pure function of its inputs once the clock, the random
source and the card store are passed in:

- **Spaced repetition** (`srs.go`, module `Recall`, with `Cards`). This is the
  SuperMemo SM-2 update `RecalculateItem`, with the ease factor held as an
  exact `real`. It also covers the due time `NextRecallTime`: the last recall
  plus `interval` days of 24 hours. Instants are whole seconds, and 0 stands
  for Go's zero `time.Time`, which a card that was never recalled carries.
- **Daily selection**, in the two versions the program carries (module
  `Schedule`, with `Shuffling`):
  - `GetItemsForToday` (srs.go) sorts the items by next recall time and scans
    them while they are due at or before `now`, up to `MaxItemsPerDay` = 10.
    It returns a shuffled list of indices into the sorted order.
  - `GetCardsForToday` (db.go) keeps the cards due strictly before `now`,
    sorts them, truncates to `min(10, n)` and shuffles the cards.
  - The two disagree on a card due exactly at `now`. `BoundaryDisagreement`
    states both behaviours. Go's `rand.Shuffle` is modelled as its
    Fisher–Yates loop with the random source `rng` as a parameter.
- **Answer matching** (`exercises.go`, modules `Exercises` and
  `ExerciseRuns`). This covers:
  - the note-name table `ParseNote`, reproduced exactly as written;
  - `CreateExercise` for note, chord and scale cards;
  - `Reset`, and the per-note state machine `Progress`, which returns the
    `InProgress | Fail | Pass` tags of `states.go`.
- **Catalog and store** (`db.go`, modules `Catalog` and `Store`):
  - the 119 default cards, built from 17 note names times 7 cards;
  - the store as a map from card name to card plus a set of recorded
    migrations;
  - `Upsert`, and the one-time seeding that `Connect` performs.

Some consequences of the code as written, which the model keeps:

- **`Progress` does not latch failure.** On a wrong note `Progress` returns
  `Fail` without changing the exercise (exercises.go:107-110), so the next
  note it receives is handled as though the wrong note had not been played
  (`ExerciseRuns.FailIsNotLatched`). The caller keeps the reported state
  separately (gui.go:18, states.go:25); what it does with the next note
  after a failure is not part of this model.
- **The two schedulers disagree on what is due.** `srs.go` stops its scan
  only on an item whose next recall is `After(now)` (srs.go:29), so an item
  due exactly at `now` is taken. `db.go` keeps only cards whose next recall
  is `Before(now)` (db.go:132). Both are modelled.
- **Sorting is unstable and in place.** Both schedulers sort with
  `sort.Slice` (srs.go:16-19, db.go:145-148), which is not stable, and
  `GetItemsForToday` sorts the caller's slice itself. The model's
  `GetItemsForToday` therefore returns the sorted items together with the
  indices. No statement here depends on how ties are ordered.
- **Several default note cards cannot be passed as named.** The note-name
  table maps each flat to the sharp of its own letter, and it has no entry
  for "Bb" or "Eb". The catalog seeds note cards for both; those two expect
  `Nil` and can never be passed (`Catalog.UnparsableDefaultNotes`,
  `ExerciseRuns.UnknownNoteNeverPasses`). The "Db", "Gb" and "Ab" note cards
  expect D#, G# and A#, so playing the key the name denotes (C#, F# or G#)
  fails them (`Catalog.FlatNoteCardsRejectTheirPitch`).

## Model

| member | source | states |
|---|---|---|
| `Cards.Key` | db.go:27-29 | A card is stored under its name: the bucket key is the name itself. |
| `Cards.NextRecallTime` | srs.go:46-48 | A card is next due a whole number of 24-hour days after its last recall, exactly `interval` of them. It is due at its last recall instant iff the interval is 0. |
| `Cards.NextRecallTimeMonotone` | srs.go:46-48 | For the same last recall, a longer interval never makes a card due earlier, and each extra interval unit delays it by at least a day. |
| `Recall.Ceil` | srs.go:59 | `math.Ceil`: the least integer not below `x`. |
| `Recall.RecalculateItem` | srs.go:50-75 | SM-2 update. On a failing grade (< 3), recalls go to 0 and the interval to 1, and the ease factor is kept. On success, recalls go up by one, and the interval becomes 1, then 6, then ceil(interval × old ef). The new ef is max(1.3, ef − 0.8 + 0.28q − 0.02q²), so it is never below 1.3. Grade 3 subtracts 0.14, grade 4 keeps an ef already at or above the floor, and grade 5 adds 0.1. |
| `Recall.EfStaysAboveFloor` | srs.go:62-66 | An ease factor at or above 1.3 stays at or above 1.3 after any series of graded recalls. |
| `Recall.IntervalGrowsOnSuccess` | srs.go:58-60 | From the third correct recall on, with ef ≥ 1, the interval never shrinks. |
| `Recall.FailureRestartsSchedule` | srs.go:52-72 | A failed recall followed by a correct one gives exactly what a first correct recall of a new card with the same ease factor gives: one recall, a one-day interval, and ef + delta(q), or 1.3 exactly when that falls below 1.3. |
| `Recall.NewCardGradeFour` | srs.go:52-68 | A new card (0 recalls, interval 0, ef 2.5) graded 4 gets 1 recall, 1 day and ef 2.5. |
| `Recall.ThreePerfectRecalls` | srs.go:52-68 | Three grade-5 recalls of a new card give intervals 1, 6 and 17 days, and ef 2.6, 2.7 and 2.8. |
| `Shuffling.Range` | srs.go:22-35 | The index list 0, 1, …, k − 1: its length is k, its members are exactly the naturals below k, and none repeats. |
| `Shuffling.Swap` | srs.go:39-41 | Exchanging two positions changes only those two positions and keeps the multiset. |
| `Shuffling.SwapKeepsNoDuplicates` | srs.go:39-41 | A swap keeps a duplicate-free sequence duplicate-free. |
| `Shuffling.ShuffleDown` | srs.go:38-41 | The Fisher–Yates passes from position i down to 1 permute the sequence: same length, same multiset, and duplicate-free if the input was. |
| `Shuffling.Shuffle` | db.go:153-157 | A shuffle is a permutation whatever the random source gives: same length and same multiset. |
| `Schedule.Min` | db.go:110-116 | `min(a, b)` is at most both arguments and equal to one of them. |
| `Schedule.Filter` | db.go:125-137 | Filtering keeps every occurrence of a card that passes the test and drops every card that fails it. This is stated as a multiset count, and every kept card passes. |
| `Schedule.FilterNone` | db.go:132-134 | When no card passes the test, nothing is kept. |
| `Schedule.FilterCountPermutation` | srs.go:16-19 | Sorting does not change how many items are due: the count depends only on the multiset. |
| `Schedule.Insert` | srs.go:16-19 | Inserting a card into a sorted sequence gives a sorted sequence holding exactly one more copy of that card. |
| `Schedule.SortByRecall` | db.go:145-148 | Sorting gives a permutation of the input in ascending order of next recall time. |
| `Schedule.DuePrefix` | srs.go:25-31 | In a sorted sequence, the items due at or before `now` are exactly the first ones, as many as there are due items. |
| `Schedule.ScanDue` | srs.go:22-35 | The scan stops at the first item due after `now`, at the cap of 10, or at the end. Every item before the stopping point is due. |
| `Schedule.ScanDueCount` | srs.go:25-35 | On sorted items, the scan takes exactly min(10, number of due items) items. |
| `Schedule.RangeShuffle` | srs.go:37-41 | A shuffled index list 0 … k − 1 still has exactly the members 0 … k − 1. |
| `Schedule.SelectionFacts` | srs.go:13-43 | The indices the scan picks refer to due items. Within the cap they include every due item, and no left-out item is due earlier than a picked one. |
| `Schedule.GetItemsForToday` | srs.go:13-44 | The items end up as a sorted permutation of the input. The result is min(10, number due at or before `now`) distinct indices, exactly 0 … count − 1 in shuffled order, each naming a due item. Within the cap every due item is chosen, and no item left out is due before a chosen one. |
| `Schedule.Eligible` | db.go:119-137 | The eligible cards are exactly the stored cards due strictly before `now`, counted with multiplicity. |
| `Schedule.KeptFacts` | db.go:145-157 | Truncating the sorted eligible cards, then permuting them, keeps a sub-multiset in which no dropped card is due before a kept one. |
| `Schedule.GetCardsForToday` | db.go:118-160 | The result has exactly min(10, number eligible) cards. Each is due strictly before `now` and comes from the store. No overdue card left out is due earlier than a returned one. |
| `Schedule.BoundaryDisagreement` | srs.go:29 | A card due exactly at `now` is selected by `GetItemsForToday`, which stops only on `After(now)`. It is left out by `GetCardsForToday`, which keeps only `Before(now)` (db.go:132). |
| `Schedule.NewCardIsDue` | srs.go:46-48 | A never-recalled card with interval 0 is due at every instant from the zero time on. `GetCardsForToday` returns it only strictly after the zero time. |
| `Schedule.NothingDueNothingSelected` | db.go:132-151 | When nothing is due, both versions return an empty selection. |
| `Exercises.ParseNote` | exercises.go:20-59 | The note-name table gives `Nil` exactly for strings outside its 17 spellings. "Bb" and "Eb" are among the strings that give `Nil`. |
| `Exercises.ParseSpellRoundTrip` | exercises.go:20-59 | Every note class except `Nil` is recognised from its sharp spelling. |
| `Exercises.FlatsAreSharpsOfTheirLetter` | exercises.go:26-53 | The flats of C, D, F, G and A map to the sharp of the same letter. The flats of B and E map to `Nil`. |
| `Exercises.Contains` | exercises.go:127-135 | `noteArrayContains` is true exactly when the note occurs in the list. |
| `Exercises.Singletons` | exercises.go:83-86 | A scale's notes become one single-note step each, in order. |
| `Exercises.CreateExercise` | exercises.go:71-94 | The exercise starts at step 0 with nothing played and takes the card's name. A note card gives one step holding the parsed note. A chord card gives one step holding the chord's notes. A scale card gives one single-note step per scale note, in order. Any other type gives no steps. |
| `Exercises.Reset` | exercises.go:96-99 | Back to step 0 with nothing played, keeping the definition. |
| `Exercises.Progress` | exercises.go:101-125 | A repeated note changes nothing (InProgress). A wrong note returns Fail and leaves the exercise unchanged. A new correct note is recorded. Completing a step advances by exactly one step and clears the played notes. Pass is returned iff that was the last step, and otherwise the step index stays playable. |
| `ExerciseRuns.ProgressKeepsWellFormed` | exercises.go:101-125 | The notes played in a step stay distinct and within that step, and are empty once every step is done. |
| `ExerciseRuns.FreshIsWellFormed` | exercises.go:89-99 | Created and reset exercises satisfy that invariant. |
| `ExerciseRuns.ResetMatchesCreate` | exercises.go:71-99 | Resetting an exercise built for a card gives exactly a freshly created exercise for that card. |
| `ExerciseRuns.FailIsNotLatched` | exercises.go:107-110 | After a wrong note, the exercise reacts to the next note exactly as if the wrong note had not been played. |
| `ExerciseRuns.FlattenSingletons` | exercises.go:83-86 | Concatenating the steps of a scale exercise gives back the scale. |
| `ExerciseRuns.StepCompletes` | exercises.go:112-124 | Playing the rest of the current step, as distinct notes of that step in any order, completes it. The exercise moves to the next step, or passes after the last one. |
| `ExerciseRuns.PlayingAllStepsPasses` | exercises.go:101-125 | Playing every remaining step's notes in order passes the exercise, provided each step is nonempty and has no repeats. |
| `ExerciseRuns.ScaleExercisePasses` | exercises.go:81-86 | A scale exercise is passed by playing the scale's notes in order. |
| `ExerciseRuns.ChordExercisePasses` | exercises.go:78-80 | A chord exercise is passed by playing the chord's distinct notes in any order. |
| `ExerciseRuns.UnknownNoteNeverPasses` | exercises.go:76-77 | A note card whose name is outside the table never passes, and the first real note played fails it. |
| `ExerciseRuns.NoStepsCannotProgress` | exercises.go:75-87 | A card of an unknown type, or a scale card whose scale has no notes, gives an exercise with no steps, which is outside `Progress`'s domain from its first note on. |
| `ExerciseRuns.ChordScenario` | exercises.go:101-125 | For the single step {C, E, G}: C and E keep the exercise in progress, and G passes it. |
| `ExerciseRuns.TwoStepScenario` | exercises.go:101-125 | For steps {C} then {D}: C advances to the second step, and F then fails it. |
| `Catalog.MakeDefaultCard` | db.go:162-171 | A default card has new-card statistics: 0 recalls, ef 2.5, interval 0 and the zero time. |
| `Catalog.MakeDefaultCardWithChord` | db.go:173-182 | A chord card also has new-card statistics. |
| `Catalog.MakeDefaultCardWithScale` | db.go:184-193 | A scale card also has new-card statistics. |
| `Catalog.CardsForNote` | db.go:218-231 | Each note seeds seven new cards. |
| `Catalog.CardsFrom` | db.go:218-231 | n notes seed 7n cards, all new. |
| `Catalog.DefaultCards` | db.go:195-234 | The catalog has 17 × 7 = 119 cards, all with new-card statistics. |
| `Catalog.CardsFromAt` | db.go:218-231 | Card 7k + s is slot s of note k. The slots are, in order: "X (note)"/"X", then "XF (chord)"/"XF" for maj, min, non, aug and dim, then "X maj (scale)"/"X maj". |
| `Catalog.DefaultCardAt` | db.go:195-234 | The same layout for the 17 default notes. |
| `Catalog.SlotNameInjective` | db.go:173-193 | Two slot cards with the same name have the same note and the same slot. |
| `Catalog.CardsFromNamesDistinct` | db.go:218-231 | Distinct note names give pairwise distinct card names. |
| `Catalog.DefaultNotesDistinct` | db.go:198-216 | The 17 default note names are distinct. |
| `Catalog.DefaultNamesDistinct` | db.go:195-234 | The 119 default card names are pairwise distinct, so no seeding write overwrites another default. |
| `Catalog.CardsFromNoteCards` | db.go:218-220 | The note cards are exactly the cards in slot 0. Each is named "X (note)" and expects X. |
| `Catalog.DefaultNoteParses` | db.go:198-216 | Of the default note names, exactly "Bb" and "Eb" are missing from the note-name table. |
| `Catalog.UnparsableDefaultNotes` | db.go:198-220 | A default note card expects `Nil` exactly when its note is "Bb" or "Eb". Both are seeded, as notes 3 and 10. |
| `Catalog.FlatNoteCardsRejectTheirPitch` | db.go:198-220 | The seeded "Db", "Gb" and "Ab" note cards (notes 7, 14 and 0) expect the sharp of their own letter, so playing C#, F# or G# fails them and leaves the exercise unchanged. |
| `Store.Upsert` | db.go:97-107 | Upsert stores the card under its name. Every other key keeps its card, no other key appears, and the migrations are unchanged. |
| `Store.UpsertLastWriteWins` | db.go:97-107 | Of two writes under one key the later wins. Writing the same card twice is the same as writing it once. |
| `Store.PutAll` | db.go:65-75 | The seeding loop adds exactly the keys of the written cards. |
| `Store.PutAllKeepsOthers` | db.go:65-75 | A key none of the written cards has keeps its card. |
| `Store.PutAllLastWins` | db.go:65-75 | A written card that no later card shares a key with is the one stored under its key. |
| `Store.Connect` | db.go:62-81 | Connect always records the "defaults" migration. If it was already recorded, nothing changes. Otherwise the default cards' keys are added. |
| `Store.ConnectSeeds` | db.go:62-81 | The first connect stores every default card under its name and leaves every other stored card as it was. |
| `Store.ConnectIdempotent` | db.go:62-81 | Connecting twice is the same as connecting once. |
| `Store.ReconnectKeepsProgress` | db.go:62-81 | A card saved after connecting survives every later connect, so seeding never overwrites progress. |
| `Store.DefaultKeyCount` | db.go:195-234 | The catalog has 119 distinct keys. |
| `Store.UnseededStoreGetsCatalog` | db.go:62-81 | Connecting a never-seeded store that holds none of the default keys (an empty one, say) adds exactly 119 cards, the default ones. |

## Left out

- Bolt: transactions, bucket creation and JSON `Serialize`/`DeserializeCard` (db.go:31-60, 98-107, 123-139). These are a foreign library, so the store is a map plus a set of migration keys, and every store error return is left out. `GetCardsForToday` therefore returns no error, and the error that `ForEach` swallows is not modelled.
- The order in which Bolt's `ForEach` yields cards is not modelled. `GetCardsForToday` takes the cards as a sequence in any order, and no statement depends on that order.
- `time.Now()`, `rand.Seed` and the random source (srs.go:14, 38; db.go:121, 154). The current instant and the random source `rng: nat -> nat` are parameters.
- `chord.Of`, `scale.Of` and `Notes()` come from the music-theory library (exercises.go:79-85), which is not part of this model. They are folded, together with chordy's own `notesToClasses` helper (exercises.go:61-69), into the two functions of a `Theory` value, which give note classes directly.
- Recall.RecalculateItem: float32 rounding is not modelled, because the ease factor is an exact real. This changes whole-day intervals on the most common path: in single precision, srs.go:62 turns ef 2.5 graded 4 into 2.5000002 rather than 2.5, so a third grade-4 recall gets ceil(6 × ef) = 16 days where the model gives 15.
- Recall.RecalculateItem: Go's `uint` wrap-around of `recalls + 1` and `q*q` is not modelled, because counters and grades are unbounded naturals. Nor is the conversion at srs.go:59 of a ceiling at or above 2^64 to `uint`, which Go leaves implementation-dependent; the model keeps the exact natural.
- Recall.RecalculateItem: requires interval × ef > −1 on the growth branch. Go's conversion of a negative float to `uint` is implementation-defined, and the model excludes exactly that case.
- Cards.NextRecallTime: instants are whole seconds, so the sub-second resolution of `time.Time` (of `time.Now()` at srs.go:14 and db.go:121, and of the stored `LastRecalledAt`) is not modelled. Two instants less than a second apart, which the `After`/`Before` comparisons at srs.go:29 and db.go:132 can tell apart, are one instant here.
- Cards.NextRecallTime: the int64 overflow of `time.Duration` for intervals above about 106 000 days is not modelled.
- Exercises.Progress: requires the current step to be in range. The source indexes `Parts[CurrentStep]` (exercises.go:108) without a check and panics otherwise: on a note played after the exercise has passed (the step equals the number of steps, exercises.go:117-121), and on any note played in an exercise with no steps, which `CreateExercise` builds for an unknown card type or an empty scale (exercises.go:75-87; see `ExerciseRuns.NoStepsCannotProgress`). The panic is not modelled.
- Schedule.SortByRecall: sorts with one fixed insertion order. Go's `sort.Slice` is not stable, so no statement about the order of cards with equal due times is made.
- Schedule.GetItemsForToday: returns the sorted items instead of sorting the caller's slice in place.
- main.go (MIDI decoding, audio output, demo playback), gui.go (terminal widgets) and states.go's `AppState`/`StateInSessionArgs`: these are device I/O, rendering and declarations without transitions.
