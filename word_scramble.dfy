/**
 * The word-scramble game: a root word is shown, the player submits words
 * spelled from its letters, and each accepted word scores its length.
 *
 * The part that decides a submission is pure: the three checks
 * (`IsOriginal`, `IsLongEnough`, `Derivable`), the spell checker (a
 * predicate handed in from outside) and `Judge`, which runs them in the
 * game's fixed order. The state of a round lives in the class
 * `ContentView`, whose methods change it in place; `RoundOk` is the
 * invariant every method keeps.
 */
module WordScramble {

  import opened Options
  import opened Text

  /** Why a submission was turned down. Each kind stands for one
      title/message pair shown in the error alert. */
  datatype Rejection =
    | Copy         // the answer is the root word itself
    | TooShort     // fewer than three letters
    | Duplicate    // already used in this round
    | NotPossible  // needs letters the root word does not have
    | Misspelled   // the spell checker does not know it

  /** What a submission leads to. `Blank` is the silent no-op for input that
      is empty once normalised. */
  datatype Verdict = Blank | Rejected(reason: Rejection) | Accepted

  /** The root word used when the list of start words is empty. */
  const FallbackRoot: string := "silkworm"

  // ---------------------------------------------------------------------
  // The checks
  // ---------------------------------------------------------------------

  /** `isOriginal`: the word is not among the words already used. */
  predicate IsOriginal(word: string, usedWords: seq<string>)
  {
    word !in usedWords
  }

  /** A word is original exactly when no position of the used words holds
      it. */
  lemma IsOriginalMeans(word: string, usedWords: seq<string>)
    ensures IsOriginal(word, usedWords) <==> forall i :: 0 <= i < |usedWords| ==> usedWords[i] != word
  {
  }

  /** `isLongEnough`: at least three characters. */
  predicate IsLongEnough(word: string)
  {
    |word| >= 3
  }

  /** What `isPossible` decides: every letter of `word` can be matched with
      its own letter of `root`, that is, the letters of `word`, counted with
      repetition, are among those of `root`. Order does not matter and not
      every letter of `root` has to be used. */
  predicate Derivable(word: string, root: string)
  {
    multiset(word) <= multiset(root)
  }

  /** `firstIndex(of:)`: the position of the first occurrence of `c`. */
  function FirstIndex(s: string, c: char): (r: Option<nat>)
    ensures r.None? <==> c !in s
    ensures r.Some? ==> r.value < |s| && s[r.value] == c && c !in s[..r.value]
  {
    if s == [] then None
    else if s[0] == c then Some(0)
    else match FirstIndex(s[1..], c)
      case None => None
      case Some(k) =>
        assert s[..k + 1] == [s[0]] + s[1..][..k];
        Some(k + 1)
  }

  /** `remove(at:)`: one character fewer, the others kept in their order. */
  function RemoveAt(s: string, pos: nat): (r: string)
    requires pos < |s|
    ensures |r| == |s| - 1
    ensures forall i :: 0 <= i < |r| ==> r[i] == s[if i < pos then i else i + 1]
    ensures multiset(r) + multiset{s[pos]} == multiset(s)
  {
    assert s == s[..pos] + [s[pos]] + s[pos + 1..];
    s[..pos] + s[pos + 1..]
  }

  // ---------------------------------------------------------------------
  // The decision
  // ---------------------------------------------------------------------

  /** The outcome of submitting the normalised `answer` while `root` is the
      root word and `used` the words accepted so far. The checks run in this
      order and the first that fails decides: empty, copy of the root, too
      short, already used, not spelled from the root, not a real word. */
  function Judge(answer: string, root: string, used: seq<string>, isReal: string -> bool): Verdict
  {
    if |answer| == 0 then Blank
    else if answer == root then Rejected(Copy)
    else if !IsLongEnough(answer) then Rejected(TooShort)
    else if !IsOriginal(answer, used) then Rejected(Duplicate)
    else if !Derivable(answer, root) then Rejected(NotPossible)
    else if !isReal(answer) then Rejected(Misspelled)
    else Accepted
  }

  /** A word is accepted exactly when it passes every check. */
  lemma AcceptedIffAllChecks(answer: string, root: string, used: seq<string>, isReal: string -> bool)
    ensures Judge(answer, root, used, isReal) == Accepted <==>
      answer != [] && answer != root && |answer| >= 3 && answer !in used
      && multiset(answer) <= multiset(root) && isReal(answer)
  {
  }

  /** Each rejection names the first check that fails: all the checks
      before it passed. */
  lemma RejectionIsFirstFailure(answer: string, root: string, used: seq<string>, isReal: string -> bool)
    ensures Judge(answer, root, used, isReal) == Rejected(Copy) <==> answer != [] && answer == root
    ensures Judge(answer, root, used, isReal) == Rejected(TooShort) <==>
      answer != [] && answer != root && |answer| < 3
    ensures Judge(answer, root, used, isReal) == Rejected(Duplicate) <==>
      answer != [] && answer != root && |answer| >= 3 && answer in used
    ensures Judge(answer, root, used, isReal) == Rejected(NotPossible) <==>
      answer != [] && answer != root && |answer| >= 3 && answer !in used
      && !(multiset(answer) <= multiset(root))
    ensures Judge(answer, root, used, isReal) == Rejected(Misspelled) <==>
      answer != [] && answer != root && |answer| >= 3 && answer !in used
      && multiset(answer) <= multiset(root) && !isReal(answer)
  {
  }

  /** Submitting the root word is always the copy error, whatever has been
      used and whatever the dictionary says, even when the root word is
      itself in the list of used words. */
  lemma CopyWinsOverOtherChecks(root: string, used: seq<string>, isReal: string -> bool)
    requires root != []
    ensures Judge(root, root, used, isReal) == Rejected(Copy)
  {
  }

  /** Submitting a word that has just been accepted a second time is the
      duplicate error. */
  lemma ResubmitIsDuplicate(w: string, root: string, used: seq<string>, isReal: string -> bool)
    requires Judge(w, root, used, isReal) == Accepted
    ensures Judge(w, root, [w] + used, isReal) == Rejected(Duplicate)
  {
  }

  /** Whether a word can be spelled depends only on its letters and their
      counts, never on their order. */
  lemma DerivableIgnoresOrder(w: string, v: string, root: string)
    requires multiset(w) == multiset(v)
    ensures Derivable(w, root) <==> Derivable(v, root)
  {
  }

  /** Any word spelled from a sub-collection of a derivable word's letters
      is derivable too; in particular the root spells itself. */
  lemma DerivableFromFewerLetters(w: string, v: string, root: string)
    requires Derivable(w, root) && multiset(v) <= multiset(w)
    ensures Derivable(v, root)
    ensures Derivable(root, root)
  {
  }

  /** A derivable word is never longer than the root word. */
  lemma DerivableNotLonger(w: string, root: string)
    requires Derivable(w, root)
    ensures |w| <= |root|
  {
    assert |multiset(w)| == |w| && |multiset(root)| == |root|;
    MultisetSubsetSize(multiset(w), multiset(root));
  }

  lemma {:induction false} MultisetSubsetSize(a: multiset<char>, b: multiset<char>)
    requires a <= b
    ensures |a| <= |b|
    decreases |a|
  {
    if a != multiset{} {
      var x :| x in a;
      MultisetSubsetSize(a - multiset{x}, b - multiset{x});
    }
  }

  /** "silk" is spelled from the letters of "silkworm". */
  lemma SilkFromSilkworm(used: seq<string>, isReal: string -> bool)
    requires "silk" !in used && isReal("silk")
    ensures Judge("silk", "silkworm", used, isReal) == Accepted
  {
    AcceptedIffAllChecks("silk", "silkworm", used, isReal);
    assert "silk" != "silkworm" by { assert |"silk"| != |"silkworm"|; }
    SilkLetters();
  }

  lemma SilkLetters()
    ensures multiset("silk") <= multiset("silkworm")
  {
  }

  /** "cats" needs an 's' that "cat" does not have, whatever the dictionary
      says. */
  lemma CatsNotFromCat(used: seq<string>, isReal: string -> bool)
    requires "cats" !in used
    ensures Judge("cats", "cat", used, isReal) == Rejected(NotPossible)
  {
    assert "cats" == "cat" + "s";
    assert multiset("cat")['s'] == 0;
  }

  // ---------------------------------------------------------------------
  // The round invariant
  // ---------------------------------------------------------------------

  /** The sum of the lengths of `words`. */
  function TotalLength(words: seq<string>): nat
  {
    if words == [] then 0 else |words[0]| + TotalLength(words[1..])
  }

  predicate NoDuplicates(words: seq<string>)
  {
    forall i, j :: 0 <= i < j < |words| ==> words[i] != words[j]
  }

  /** What every used word satisfies: it passed all the checks against
      `root` and is already in normalised form. */
  predicate WellFormedEntry(w: string, root: string, isReal: string -> bool)
  {
    w != root && IsLongEnough(w) && Derivable(w, root) && isReal(w) && IsLowered(w) && IsTrimmed(w)
  }

  /** The used words, newest first, are all well formed and pairwise
      different. Stated recursively along the list; `UsedWordsOkMeans` gives
      the same in terms of positions. */
  predicate UsedWordsOk(root: string, used: seq<string>, isReal: string -> bool)
    decreases |used|
  {
    used == []
    || (WellFormedEntry(used[0], root, isReal) && used[0] !in used[1..]
        && UsedWordsOk(root, used[1..], isReal))
  }

  /** The invariant of a round: the score is the total length of the used
      words, no word is used twice, and every used word is well formed. */
  predicate RoundOk(root: string, used: seq<string>, score: int, isReal: string -> bool)
  {
    score == TotalLength(used) && UsedWordsOk(root, used, isReal)
  }

  /** `UsedWordsOk` says exactly: no duplicates, and every entry well formed. */
  lemma {:induction false} UsedWordsOkMeans(root: string, used: seq<string>, isReal: string -> bool)
    ensures UsedWordsOk(root, used, isReal) <==>
      NoDuplicates(used) && forall i :: 0 <= i < |used| ==> WellFormedEntry(used[i], root, isReal)
    decreases |used|
  {
    if used != [] {
      var rest := used[1..];
      UsedWordsOkMeans(root, rest, isReal);
      assert forall i :: 1 <= i < |used| ==> used[i] == rest[i - 1];
      if NoDuplicates(used) {
        assert NoDuplicates(rest) by {
          forall i, j | 0 <= i < j < |rest| ensures rest[i] != rest[j] {
            assert rest[i] == used[i + 1] && rest[j] == used[j + 1];
          }
        }
        assert used[0] !in rest by {
          forall k | 0 <= k < |rest| ensures rest[k] != used[0] {
            assert rest[k] == used[k + 1];
          }
        }
      }
      if used[0] !in rest && NoDuplicates(rest) {
        forall i, j | 0 <= i < j < |used| ensures used[i] != used[j] {
          if i == 0 {
            assert used[j] == rest[j - 1];
          } else {
            assert used[i] == rest[i - 1] && used[j] == rest[j - 1];
          }
        }
      }
    }
  }

  /** Accepting a word keeps the round invariant when the word goes to the
      front of the list and its length is added to the score. */
  lemma AcceptKeepsRound(raw: string, root: string, used: seq<string>, score: int, isReal: string -> bool)
    requires RoundOk(root, used, score, isReal)
    requires Judge(Normalize(raw), root, used, isReal) == Accepted
    ensures RoundOk(root, [Normalize(raw)] + used, score + |Normalize(raw)|, isReal)
  {
    var w := Normalize(raw);
    assert IsLowered(w) && IsTrimmed(w);
    PrependKeepsRound(w, root, used, score, isReal);
  }

  lemma PrependKeepsRound(w: string, root: string, used: seq<string>, score: int, isReal: string -> bool)
    requires RoundOk(root, used, score, isReal)
    requires Judge(w, root, used, isReal) == Accepted && IsLowered(w) && IsTrimmed(w)
    ensures RoundOk(root, [w] + used, score + |w|, isReal)
  {
    var l := [w] + used;
    assert l[0] == w && l[1..] == used;
    assert WellFormedEntry(w, root, isReal);
    assert TotalLength(l) == |w| + TotalLength(used);
    assert UsedWordsOk(root, l, isReal);
  }

  /** In a round in progress the score is between three and |root| points
      per used word. */
  lemma {:induction false} ScoreBounds(root: string, used: seq<string>, score: int, isReal: string -> bool)
    requires RoundOk(root, used, score, isReal)
    ensures 3 * |used| <= score <= |root| * |used|
    decreases |used|
  {
    if used != [] {
      var rest := used[1..];
      ScoreBounds(root, rest, score - |used[0]|, isReal);
      DerivableNotLonger(used[0], root);
      MulSucc(|root|, |rest|);
    }
  }

  lemma MulSucc(a: int, b: int)
    ensures a * (b + 1) == a * b + a
  {
  }

  // ---------------------------------------------------------------------
  // What a submission does to the game
  // ---------------------------------------------------------------------

  /** The fields of the game, as values. `error` stands for `errorTitle`
      and `errorMessage`: the kind of the last error, `None` while both are
      still the empty string. */
  datatype Fields = Fields(
    usedWords: seq<string>,
    rootWord: string,
    newWord: string,
    score: int,
    error: Option<Rejection>,
    showingError: bool)

  /** The effect of `addNewWord` on the fields: blank input leaves them
      alone, a rejection records its kind and raises the alert, an accepted
      word goes to the front of the used words, adds its length to the score
      and clears the text field. */
  function Submit(f: Fields, isReal: string -> bool): Fields
  {
    var answer := Normalize(f.newWord);
    match Judge(answer, f.rootWord, f.usedWords, isReal)
    case Blank => f
    case Rejected(kind) => f.(error := Some(kind), showingError := true)
    case Accepted => f.(usedWords := [answer] + f.usedWords, score := f.score + |answer|, newWord := "")
  }

  /** Input that is only whitespace (or nothing) changes nothing at all and
      shows no alert. */
  lemma BlankSubmitChangesNothing(f: Fields, isReal: string -> bool)
    requires IsBlank(f.newWord)
    ensures Submit(f, isReal) == f
  {
  }

  /** A rejected submission only records the kind of the first failed
      check and raises the alert: the used words, the score, the root word
      and the text field stay as they were. */
  lemma SubmitRejected(f: Fields, isReal: string -> bool, kind: Rejection)
    requires Judge(Normalize(f.newWord), f.rootWord, f.usedWords, isReal) == Rejected(kind)
    ensures Submit(f, isReal) == f.(error := Some(kind), showingError := true)
  {
  }

  /** An accepted submission adds exactly one word, the normalised input,
      at the front, raises the score by its length and clears the field. */
  lemma AcceptedSubmitAddsWord(f: Fields, isReal: string -> bool)
    requires Judge(Normalize(f.newWord), f.rootWord, f.usedWords, isReal) == Accepted
    ensures var g := Submit(f, isReal);
      g.usedWords == [Normalize(f.newWord)] + f.usedWords && |g.usedWords| == |f.usedWords| + 1
      && g.score == f.score + |Normalize(f.newWord)| && g.newWord == ""
      && g.rootWord == f.rootWord && g.error == f.error && g.showingError == f.showingError
    ensures Submit(f, isReal) == f.(usedWords := [Normalize(f.newWord)] + f.usedWords,
                                   score := f.score + |Normalize(f.newWord)|, newWord := "")
  {
  }

  /** Every submission keeps the round invariant, keeps the root word and
      never lowers the score. */
  lemma SubmitKeepsRound(f: Fields, isReal: string -> bool)
    requires RoundOk(f.rootWord, f.usedWords, f.score, isReal)
    ensures var g := Submit(f, isReal);
      RoundOk(g.rootWord, g.usedWords, g.score, isReal) && g.rootWord == f.rootWord
      && g.score >= f.score
  {
    if Judge(Normalize(f.newWord), f.rootWord, f.usedWords, isReal) == Accepted {
      AcceptKeepsRound(f.newWord, f.rootWord, f.usedWords, f.score, isReal);
    }
  }

  // ---------------------------------------------------------------------
  // The game state
  // ---------------------------------------------------------------------

  class ContentView {
    var usedWords: seq<string>
    var rootWord: string
    /** The contents of the text field. */
    var newWord: string
    var score: int
    /** The kind of the last error, standing for `errorTitle` and
        `errorMessage`; `None` while they are still the empty strings. */
    var error: Option<Rejection>
    var showingError: bool
    /** The spell checker, `isReal`: true when the dictionary finds no
        misspelling in the word. */
    const isReal: string -> bool

    ghost predicate Valid()
      reads this
    {
      RoundOk(rootWord, usedWords, score, isReal)
    }

    /** The fields as a value. */
    ghost function State(): Fields
      reads this
    {
      Fields(usedWords, rootWord, newWord, score, error, showingError)
    }

    /** The state before the view first appears. */
    constructor (isReal: string -> bool)
      ensures Valid()
      ensures this.isReal == isReal
      ensures usedWords == [] && rootWord == "" && newWord == "" && score == 0
      ensures error == None && !showingError
    {
      this.isReal := isReal;
      usedWords := [];
      rootWord := "";
      newWord := "";
      score := 0;
      error := None;
      showingError := false;
    }

    /** The player edits the text field. */
    method EditNewWord(text: string)
      requires Valid()
      modifies this
      ensures Valid()
      ensures newWord == text
      ensures usedWords == old(usedWords) && rootWord == old(rootWord) && score == old(score)
      ensures error == old(error) && showingError == old(showingError)
    {
      newWord := text;
    }

    /** `wordError`: records the kind of error and raises the alert. */
    method WordError(kind: Rejection)
      requires Valid()
      modifies this
      ensures Valid()
      ensures State() == old(State()).(error := Some(kind), showingError := true)
    {
      error := Some(kind);
      showingError := true;
    }

    /** `isPossible`: consumes one matching letter of a working copy of the
        root word for each letter of `word`. */
    method IsPossible(word: string) returns (ok: bool)
      ensures ok <==> multiset(word) <= multiset(rootWord)
    {
      var tempWord := rootWord;
      for i := 0 to |word|
        invariant multiset(tempWord) + multiset(word[..i]) == multiset(rootWord)
      {
        var letter := word[i];
        assert word[..i + 1] == word[..i] + [letter];
        match FirstIndex(tempWord, letter)
        case Some(pos) =>
          tempWord := RemoveAt(tempWord, pos);
        case None =>
          assert multiset(word[..i + 1])[letter] > multiset(rootWord)[letter];
          assert word == word[..i + 1] + word[i + 1..];
          return false;
      }
      assert word[..|word|] == word;
      return true;
    }

    /** `addNewWord`: normalises the text field and runs the checks in
        order. Blank input changes nothing; a rejection raises the alert of
        its kind and changes nothing else; an accepted word goes to the
        front of the used words, its length is added to the score and the
        text field is cleared. */
    method AddNewWord()
      requires Valid()
      modifies this
      ensures Valid()
      ensures State() == Submit(old(State()), isReal)
    {
      var answer := Normalize(newWord);
      ghost var verdict := Judge(answer, rootWord, usedWords, isReal);
      ghost var before := State();
      if |answer| == 0 {
        return;
      }
      if answer == rootWord {
        SubmitRejected(before, isReal, Copy);
        WordError(Copy);
        return;
      }
      if !IsLongEnough(answer) {
        SubmitRejected(before, isReal, TooShort);
        WordError(TooShort);
        return;
      }
      if !IsOriginal(answer, usedWords) {
        SubmitRejected(before, isReal, Duplicate);
        WordError(Duplicate);
        return;
      }
      var possible := IsPossible(answer);
      if !possible {
        SubmitRejected(before, isReal, NotPossible);
        WordError(NotPossible);
        return;
      }
      if !isReal(answer) {
        SubmitRejected(before, isReal, Misspelled);
        WordError(Misspelled);
        return;
      }
      assert verdict == Accepted;
      PrependKeepsRound(answer, rootWord, usedWords, score, isReal);
      AcceptedSubmitAddsWord(before, isReal);
      usedWords := [answer] + usedWords;
      score := score + |answer|;
      newWord := "";
      assert State() == Fields([answer] + before.usedWords, before.rootWord, "",
                               before.score + |answer|, before.error, before.showingError);
    }

    /** `startGame`: picks the root word and clears the round. `allWords`
        is the list read from the start-word file and `choice` the random
        position in it; an empty list gives the fallback root word. */
    method StartGame(allWords: seq<string>, choice: nat)
      requires allWords != [] ==> choice < |allWords|
      modifies this
      ensures Valid()
      ensures rootWord == if allWords == [] then FallbackRoot else allWords[choice]
      ensures usedWords == [] && newWord == "" && score == 0
      ensures error == old(error) && showingError == old(showingError)
    {
      rootWord := if allWords == [] then FallbackRoot else allWords[choice];
      usedWords := [];
      newWord := "";
      score := 0;
    }
  }

}
