# Word Scramble and Guess the Flag, as Dafny models

This project models two small SwiftUI games.

**Word Scramble.** A root word is drawn from a list of start words. The
player types words spelled from its letters. Each submission is lowercased
and trimmed, then checked in a fixed order; the first failing check decides:

1. blank input is ignored;
2. the root word itself is a copy;
3. fewer than three letters is too short;
4. a word already used is a duplicate;
5. a word using a letter more often than the root has it is not possible;
6. a word the spell checker rejects is misspelled.

An accepted word goes to the front of the used words, and its length is
added to the score. The model is the view's state as a `class`
(`WordScramble.ContentView`):

- the letter-consuming loop of `isPossible` is a `method` with a loop
  invariant;
- `isOriginal`, `isLongEnough` and the whole decision are plain functions
  (`Judge`, `Submit`);
- the text transforms are module `Text`.

The round invariant holds after every operation: the score is the total
length of the used words, and every used word is distinct, spelled from the
root, at least three letters long, different from the root and in
normalised form.

**Guess the Flag.** Eleven countries are shuffled, and one of the first
three is the right answer. Every tap counts as an answer, and a right tap
scores a point. Once eight answers have been given, the next question raises
the end-of-game alert, and restarting zeroes both counters. The model is the
view as `GuessTheFlag.ContentView`. Its invariant: the list is a reordering
of the eleven distinct names the view was created with (the eleven countries
for the view `NewGame` creates), the right answer is among the first three,
and `0 <= score <= seq`.

Randomness comes from outside:

- the shuffled list and the random position are parameters;
- their preconditions say what the random source promises: a reordering,
  a position in `0...2`, an index into the start-word list.

The spell checker is a function given to the Word Scramble view when it is
created.

## Model

| member | source | states |
|---|---|---|
| Text.LowerChar | WordScramble/WordScramble/ContentView.swift:94 | an upper-case ASCII letter becomes the lower-case letter at the same alphabet position; every other character is kept; the result is never upper case; whitespace stays whitespace |
| Text.Lower | WordScramble/WordScramble/ContentView.swift:94 | `lowercased()` keeps the length |
| Text.LowerAt | WordScramble/WordScramble/ContentView.swift:94 | `lowercased()` works position by position: character i of the result is character i lowered |
| Text.LowerFacts | WordScramble/WordScramble/ContentView.swift:94 | the lowered string has no upper-case letter; lowering an already lowered string changes nothing; lowering keeps a string blank exactly when it was blank |
| Text.IsWhitespace | WordScramble/WordScramble/ContentView.swift:94 | the `.whitespacesAndNewlines` set: space, U+0009..U+000D, U+0085, U+00A0, U+1680, U+2000..U+200A, U+2028, U+2029, U+202F, U+205F and U+3000 |
| Text.TextStart | WordScramble/WordScramble/ContentView.swift:94 | the position where the trimmed text starts: everything before it is whitespace, and the character there, if any, is not |
| Text.TextEnd | WordScramble/WordScramble/ContentView.swift:94 | the position where the trimmed text ends: everything from it to the end is whitespace, and the character before it, if it is past the start, is not |
| Text.TrimmedSlice | WordScramble/WordScramble/ContentView.swift:94 | cutting at those two positions leaves a string that is trimmed, empty exactly when the input is blank, and the whole input when it was already trimmed |
| Text.Trim | WordScramble/WordScramble/ContentView.swift:94 | `trimmingCharacters(in: .whitespacesAndNewlines)` is `s[a..b]` for a whitespace-only prefix `s[..a]` and a whitespace-only suffix `s[b..]`; the result is trimmed; it is empty exactly when the input is blank; an already trimmed string is unchanged; no character is invented |
| Text.Normalize | WordScramble/WordScramble/ContentView.swift:94 | the answer is lowered and trimmed, and it is empty exactly when the input is blank, so `answer.count > 0` rejects exactly the blank inputs |
| Text.NormalizeIdempotent | WordScramble/WordScramble/ContentView.swift:94 | normalising an answer a second time changes nothing |
| WordScramble.IsOriginal | WordScramble/WordScramble/ContentView.swift:57-59 | `isOriginal`: the word is not among the used words |
| WordScramble.IsLongEnough | WordScramble/WordScramble/ContentView.swift:83-85 | `isLongEnough`: the word has at least three characters |
| WordScramble.Derivable | WordScramble/WordScramble/ContentView.swift:61-73 | what `isPossible` decides: the word's letters, counted with repetition, are among the root's (multiset inclusion) |
| WordScramble.IsOriginalMeans | WordScramble/WordScramble/ContentView.swift:57-59 | `isOriginal` holds exactly when no used word equals the word |
| WordScramble.FirstIndex | WordScramble/WordScramble/ContentView.swift:65 | `firstIndex(of:)` is nil exactly when the letter is absent; otherwise it returns the index of the letter with no earlier occurrence |
| WordScramble.RemoveAt | WordScramble/WordScramble/ContentView.swift:66 | `remove(at:)` shortens the string by one, shifts the later characters down, and takes away exactly one copy of the removed letter |
| WordScramble.ContentView.IsPossible | WordScramble/WordScramble/ContentView.swift:61-73 | the loop answers true exactly when every letter of the word occurs in the root at least as often as in the word (multiset inclusion) |
| WordScramble.DerivableIgnoresOrder | WordScramble/WordScramble/ContentView.swift:61-73 | whether a word can be spelled from the root depends only on its letter counts |
| WordScramble.DerivableFromFewerLetters | WordScramble/WordScramble/ContentView.swift:61-73 | a word made of a sub-collection of a spellable word's letters is spellable; the root spells itself |
| WordScramble.DerivableNotLonger | WordScramble/WordScramble/ContentView.swift:61-73 | a spellable word is never longer than the root |
| WordScramble.Judge | WordScramble/WordScramble/ContentView.swift:95-120 | the outcome of the checks of `addNewWord`, run in the source's order with the first failure deciding: blank, copy, too short, duplicate, not possible, misspelled, else accepted |
| WordScramble.AcceptedIffAllChecks | WordScramble/WordScramble/ContentView.swift:95-120 | an answer is accepted exactly when it is non-empty, not the root, at least three long, unused, spelled from the root and real |
| WordScramble.RejectionIsFirstFailure | WordScramble/WordScramble/ContentView.swift:95-120 | for each error kind, both directions: that error is raised exactly when every earlier check passed and its own check failed |
| WordScramble.CopyWinsOverOtherChecks | WordScramble/WordScramble/ContentView.swift:97-100 | submitting the root word always gives the copy error, whatever the used words and the dictionary say |
| WordScramble.ResubmitIsDuplicate | WordScramble/WordScramble/ContentView.swift:107-110 | a word accepted once is rejected as a duplicate when it is submitted again |
| WordScramble.SilkFromSilkworm | WordScramble/WordScramble/ContentView.swift:112-120 | with the fallback root "silkworm", "silk" is accepted when it is unused and real |
| WordScramble.CatsNotFromCat | WordScramble/WordScramble/ContentView.swift:112-115 | with the root "cat", "cats" fails the letters check (not possible), whatever the dictionary says |
| WordScramble.UsedWordsOkMeans | WordScramble/WordScramble/ContentView.swift:107-125 | the recursive invariant on the used words means exactly: no duplicates, and every entry passed all checks and is normalised |
| WordScramble.PrependKeepsRound | WordScramble/WordScramble/ContentView.swift:122-125 | inserting an accepted, normalised word at the front and adding its length to the score keeps the round invariant |
| WordScramble.AcceptKeepsRound | WordScramble/WordScramble/ContentView.swift:93-125 | accepting the normalised text keeps the round invariant |
| WordScramble.ScoreBounds | WordScramble/WordScramble/ContentView.swift:93-125 | in any round the score lies between 3 and |root| points per used word: `3 * |used| <= score <= |root| * |used|` |
| WordScramble.Submit | WordScramble/WordScramble/ContentView.swift:93-128 | the effect of `addNewWord` on the fields: blank input leaves them alone, a rejection records its kind and raises the alert, an accepted answer goes to the front of the used words, adds its length to the score and clears the text field |
| WordScramble.BlankSubmitChangesNothing | WordScramble/WordScramble/ContentView.swift:94-95 | submitting blank text changes no field and raises no alert |
| WordScramble.SubmitRejected | WordScramble/WordScramble/ContentView.swift:97-120 | a rejection changes only the error kind and the alert flag |
| WordScramble.AcceptedSubmitAddsWord | WordScramble/WordScramble/ContentView.swift:122-127 | an acceptance adds exactly the normalised answer at the front, raises the score by its length and clears the text field; nothing else changes |
| WordScramble.SubmitKeepsRound | WordScramble/WordScramble/ContentView.swift:93-128 | every submission keeps the round invariant and the root word, and never lowers the score |
| WordScramble.ContentView.constructor | WordScramble/WordScramble/ContentView.swift:11-18 | the initial state: no used words, empty root and text, score 0, no error, no alert |
| WordScramble.ContentView.EditNewWord | WordScramble/WordScramble/ContentView.swift:24 | typing sets the text field only |
| WordScramble.ContentView.WordError | WordScramble/WordScramble/ContentView.swift:87-91 | the error kind is recorded, the alert is raised, and nothing else changes |
| WordScramble.ContentView.AddNewWord | WordScramble/WordScramble/ContentView.swift:93-128 | the new state is `Submit` of the old one, and the round invariant is kept |
| WordScramble.ContentView.StartGame | WordScramble/WordScramble/ContentView.swift:130-146 | the root becomes the chosen start word, or "silkworm" for an empty list; used words, text and score are cleared; the error alert is untouched |
| GuessTheFlag.AllCountriesDistinct | GuessTheFlag/GuessTheFlag/ContentView.swift:11 | the eleven country names are pairwise different |
| GuessTheFlag.DistinctIffSingleCounts | GuessTheFlag/GuessTheFlag/ContentView.swift:11 | a list has no repeated name exactly when every name occurs in it at most once |
| GuessTheFlag.ShuffleKeepsDistinct | GuessTheFlag/GuessTheFlag/ContentView.swift:87 | shuffling keeps the length and keeps the names distinct |
| GuessTheFlag.DealtCountries | GuessTheFlag/GuessTheFlag/ContentView.swift:11 | any shuffle of the eleven countries lists eleven different names |
| GuessTheFlag.NewGame | GuessTheFlag/GuessTheFlag/ContentView.swift:11-19 | the view as created: a shuffle of the eleven countries, a right answer among the first three, no alerts, both counters 0; the invariant holds |
| GuessTheFlag.ContentView.constructor | GuessTheFlag/GuessTheFlag/ContentView.swift:11-19 | the initial state over eleven distinct names: that list, the chosen right answer, no alerts, no title, score and answer count 0 |
| GuessTheFlag.ContentView.AskQuestion | GuessTheFlag/GuessTheFlag/ContentView.swift:86-93 | the list is reshuffled and a new right answer picked; the end alert is raised when at least eight answers were given and is never lowered; the counters and the score alert are unchanged |
| GuessTheFlag.ContentView.FlagTapped | GuessTheFlag/GuessTheFlag/ContentView.swift:95-105 | the score goes up by one exactly when the tapped flag is the right one; the answer count goes up by one; the score alert is raised; its title is "right", or "wrong" naming the tapped country, which is never the asked-for one; the invariant `0 <= score <= seq` is kept |
| GuessTheFlag.ContentView.Restart | GuessTheFlag/GuessTheFlag/ContentView.swift:76-80 | the restart button asks a new question, then zeroes the answer count and the score; because the question is asked before the count is zeroed, restarting after eight answers leaves the end-of-game flag raised |

## Left out

- Text.Lower: does not model full Unicode lowercasing. Only 'A'..'Z' are lowered; other cased letters are kept as they are.
- Text.Normalize: strings are sequences of code points. Swift's grapheme-cluster `count` and canonical equivalence in `==` are not modelled.
- `isReal` (`UITextChecker`) is a function given to the view when it is created: the model cannot see the system dictionary.
- Loading `start.txt` and `fatalError` when it cannot be read are I/O. `StartGame` takes the split lines and the random index as parameters. Splitting on "\n" never yields an empty list, so in the app the "silkworm" fallback cannot happen; the model still keeps that branch.
- `shuffle()`, `shuffled()`, `Int.random` and `randomElement()` are parameters whose preconditions say what they promise.
- The alert texts are UI strings. The model records only the kind of error (`Rejection`) and of score title (`ScoreTitle`).
- The alerts resetting `showingError`, `showingScore` and `showingEnd` when they are dismissed, `withAnimation`, and the view layout are UI behaviour, outside the model.
- `Int` overflow of `score` and `seq` is not modelled: integers are unbounded.
- There is no round counter and no limit on rounds in Word Scramble, because its code has none.
- WeSplit, ViewsAndModifiers and iExpense are not part of this model.
