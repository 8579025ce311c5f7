# Flashcards: quiz session and custom pair editor

A Dafny model of the two state-holding parts of a small browser study app.

- **The flashcard quiz** (`flashcard.js`) keeps a deck of cards, a cursor on the card on screen, and a score and a streak. A card is multiple-choice, free-input or flip. The page's buttons move the cursor, check an answer, mark a card known, shuffle, reset, restore the built-in deck and add a card built from a form. Module `Flashcard` models this as the class `QuizSession` over the datatype `Card`. Its invariant `Valid()` says the cursor is on a card, or the deck is empty and the cursor is 0.
- **The custom pair editor** (`custom-tiles.js`) keeps a list of question/answer pairs. It adds a pair only when both trimmed fields are non-empty, removes a pair by index and clears the list. After every edit it writes out a configuration record. Module `CustomTiles` models this as the class `PairEditor` over `seq<Pair>`. Its invariant says every stored pair is trimmed and non-empty. The configuration is the pure function `BuildConfig`.
- **String helpers** (module `Strings`) model `String.prototype.trim` and `split` with a one-character separator. `IsSpace` lists the exact code points that ECMAScript's `trim` removes: its WhiteSpace and LineTerminator sets. Characters are Unicode scalar values, where JavaScript uses UTF-16 code units. All of these code points are single code units, so trimming is the same either way.

Form fields, stored values and random choices become parameters:
- The stored deck and the stored counters are `Option` inputs to the `QuizSession` constructor. `None` means missing, and for a counter also unparseable.
- The shuffle's random comparator is a parameter `coin: nat -> bool`. It gives the answer to the k-th comparison.

## Model

| member | source | states |
|---|---|---|
| `Strings.LeadingSpaces` | flashcard.js:151-157 | the count of leading characters `trim` removes: all of them are whitespace, and the next character, if any, is not |
| `Strings.TrimmedEnd` | custom-tiles.js:46-47 | where `trim` cuts the end: everything after it is whitespace, and the character before it, if any, is not |
| `Strings.Trim` | custom-tiles.js:46-47 | the result of `trim()` has no whitespace at either end and is no longer than the input |
| `Strings.TrimSlice` | custom-tiles.js:46-47 | the result of `trim()` is a slice of the input, and everything on either side of that slice is whitespace |
| `Strings.TrimPadded` | custom-tiles.js:46-47 | the contract of `Trim` determines its result: a trimmed middle with whitespace around it trims to exactly that middle |
| `Strings.TrimIdempotent` | flashcard.js:151-157 | trimming an already trimmed string changes nothing |
| `Strings.TrimChars` | flashcard.js:151 | trimming adds no characters, so a trimmed choice has no comma if the piece it came from had none |
| `Strings.Split` | flashcard.js:151 | `split(',')` yields at least one piece, and no piece contains the separator |
| `Strings.JoinSplit` | flashcard.js:151 | joining the pieces of a split with the separator gives back the original string |
| `Strings.SplitJoin` | flashcard.js:151 | splitting the join of at least one separator-free piece gives back exactly those pieces |
| `Flashcard.Preloaded` | flashcard.js:2-7 | the built-in deck has four cards, every multiple-choice card lists its answer among its choices, and every card except the flip card has an answer |
| `Flashcard.TrimAll` | flashcard.js:151 | mapping `trim` over the split pieces gives one choice per piece, in order: choice k is piece k trimmed, so it has no whitespace at either end and no comma |
| `Flashcard.NewCard` | flashcard.js:146-158 | the add-card form's type picks the kind of card: "mc", "input" and "flip" build those kinds, and any other type builds a bare card with that type. The question is kept as typed. Multiple-choice cards get as choices the comma-split pieces of the choices field, each trimmed, in order (so each is trimmed and comma-free), and a trimmed answer. Input cards get a trimmed answer and flip cards a trimmed back |
| `Flashcard.TrimAllTrimmed` | flashcard.js:151 | mapping `trim` over pieces that are already trimmed gives back the same pieces |
| `Flashcard.TypedChoicesKept` | flashcard.js:151 | choices typed as a comma-separated list of trimmed, comma-free entries come back as exactly those entries, in order |
| `Flashcard.QuizSession.constructor` | flashcard.js:10-21 | start-up loads the stored deck if there is one and the preloaded deck otherwise. Score and streak are the stored values, or 0 when missing or unparseable. The cursor starts at 0 and the invariant holds |
| `Flashcard.QuizSession.CurrentCard` | flashcard.js:79 | there is a current card exactly when the deck is non-empty, and it is the card under the cursor |
| `Flashcard.QuizSession.CheckAnswer` | flashcard.js:78-91 | an answer equal to the current card's `answer` raises score and streak by exactly one. Any other answer sets the streak to 0 and keeps the score. Flip cards have no `answer`, so every value is wrong for them. With no card, nothing changes. The deck and cursor are untouched |
| `Flashcard.QuizSession.Next` | flashcard.js:94-98 | the cursor advances by one only when it is before the last card, else stays. It stays on a card, and nothing else changes |
| `Flashcard.QuizSession.Prev` | flashcard.js:99-103 | the cursor goes back by one only when it is above 0, else stays. It never goes negative, and nothing else changes |
| `Flashcard.QuizSession.ToggleSound` | flashcard.js:106-109 | the sound flag flips and nothing else changes |
| `Flashcard.QuizSession.Reset` | flashcard.js:112-118 | with storage cleared the deck is the preloaded deck, and score, streak and cursor are all 0. A second reset therefore gives the same state |
| `Flashcard.QuizSession.Shuffle` | flashcard.js:121-126 | whatever the comparator answers, the deck afterwards is a permutation of the deck before (same multiset, same length), and the cursor is 0 |
| `Flashcard.QuizSession.MarkKnown` | flashcard.js:129-132 | score and streak each rise by exactly one, and nothing else changes |
| `Flashcard.QuizSession.AddCard` | flashcard.js:146-163 | exactly one card, the one the form builds, is appended at the end. Earlier cards, the cursor and the counters are unchanged, and the invariant holds |
| `Flashcard.QuizSession.ImportPreloaded` | flashcard.js:166-171 | the deck becomes the preloaded cards and the cursor 0, and the counters are kept |
| `CustomTiles.BuildConfig` | custom-tiles.js:37-43 | the subject is the field's value when that is non-empty and `Custom Subject` otherwise, so it is never empty. The pair list is the editor's list entry for entry, in the same order, so after an add or a removal the written list follows the edit |
| `CustomTiles.PairEditor.constructor` | custom-tiles.js:10 | the editor starts with an empty list |
| `CustomTiles.PairEditor.CurrentConfig` | custom-tiles.js:37-43 | the configuration written for the editor is `BuildConfig` of the subject field and the current list: a non-empty subject, one entry per pair, and every question and answer in it non-empty and trimmed |
| `CustomTiles.PairEditor.AddPair` | custom-tiles.js:45-54 | a pair is added exactly when both trimmed fields are non-empty, and then `{trim(question), trim(answer)}` is appended after the untouched earlier pairs. Otherwise the list is unchanged. Every stored pair stays trimmed and non-empty |
| `CustomTiles.PairEditor.Remove` | custom-tiles.js:24-28 | at a valid index, exactly that pair goes: the length drops by one and the others keep their relative order. An index past the end changes nothing |
| `CustomTiles.PairEditor.Reset` | custom-tiles.js:56-63 | the list becomes empty, and the configuration written next is the default subject with no pairs |

## Left out

- Rendering is not modelled: the DOM reads and writes, card rendering, the feedback text, display toggling, the progress-bar percentage (floating-point display arithmetic) and the editor's pair list. Form-field values are method parameters instead.
- Persistence is not modelled: `saveProgress`, the `localStorage` writes of both files, and `JSON.parse`/`JSON.stringify`. The stored deck and counters enter only as constructor inputs, and `Reset` is modelled as a reload from cleared storage. So the model does not show that "mark known", next/prev, shuffle and restore-preloaded do not save, while checking an answer and adding a card do.
- `Flashcard.QuizSession.constructor`: `parseInt(...) || 0` is abstracted: a stored counter is either a parsed integer or missing/unparseable (`None`, read as 0). Parsing digits out of text is not modelled.
- `Flashcard.QuizSession.Shuffle`: `deck.sort` with a random comparator is modelled as an insertion sort driven by the comparator's answers, because the engine's sorting algorithm and the distribution of `Math.random` are not part of the source. Only the permutation property is claimed, and reachability of every order is not.
- Flashcard.QuizSession.CheckAnswer, Flashcard.QuizSession.MarkKnown and Flashcard.QuizSession.constructor: score and streak are unbounded integers. In the source they are JavaScript numbers (IEEE-754 doubles), so from 2^53 on `score++` and `streak++` no longer add exactly one, and `parseInt` rounds a stored counter above 2^53. The model's "+1 exactly" holds only below 2^53, which takes a hand-edited stored value or 2^53 answers to leave.
- Audio playback on answers is a foreign side effect. The sound flag is kept, but nothing is played.
- Copying the configuration to the clipboard (`execCommand('copy')`) is not modelled, and neither is the JSON text of the configuration.
- `checkAnswer` on an empty deck throws in the source when it reads the missing card's `answer`. The model returns `NoCard` and changes nothing, which is the state the throw leaves behind.
- The matching-tile game, its pair generator, its pick/compare state machine and best-time tracking are not part of this model: their code is not among the files modelled.
