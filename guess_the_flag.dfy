/**
 * The flag quiz: eleven countries are shuffled, the first three flags are
 * offered and the player taps the flag of the country asked for. Every tap
 * counts as one answer and a right one scores a point; once eight answers
 * have been given the next question ends the game, and restarting zeroes the
 * counters.
 *
 * The shuffle and the random choice of the right flag come from outside:
 * they are parameters whose preconditions say what the random source
 * promises (a reordering of the current list, a position among the first
 * three).
 */
module GuessTheFlag {

  /** The countries in the order they are listed before the first shuffle. */
  const AllCountries: seq<string> :=
    ["Estonia", "France", "Germany", "Ireland", "Italy", "Nigeria",
     "Poland", "Russia", "Spain", "UK", "US"]

  /** Once this many answers have been given, the next question ends the
      game. */
  const GameLength: int := 8

  /** What the score alert says: nothing yet, right, or wrong together with
      the country whose flag was tapped. */
  datatype ScoreTitle = Untitled | Right | Wrong(picked: string)

  /** No name occurs twice. */
  predicate Distinct(s: seq<string>)
  {
    forall i, j :: 0 <= i < j < |s| ==> s[i] != s[j]
  }

  /** `t` is a reordering of `s`: what `shuffle()` and `shuffled()` return. */
  predicate IsShuffleOf(t: seq<string>, s: seq<string>)
  {
    multiset(t) == multiset(s)
  }

  /** One of the three offered flags: what `Int.random(in: 0...2)` returns
      and what the three buttons pass. */
  predicate IsChoice(n: int)
  {
    0 <= n <= 2
  }

  /** The eleven countries are all different. */
  lemma AllCountriesDistinct()
    ensures Distinct(AllCountries) && |AllCountries| == 11
  {
  }

  /** A list has no repeated name exactly when every name occurs in it at
      most once. */
  lemma {:induction false} DistinctIffSingleCounts(s: seq<string>)
    ensures Distinct(s) <==> forall x :: multiset(s)[x] <= 1
    decreases |s|
  {
    if s != [] {
      var rest := s[1..];
      DistinctIffSingleCounts(rest);
      assert s == [s[0]] + rest;
      assert multiset(s) == multiset{s[0]} + multiset(rest);
      assert forall i :: 1 <= i < |s| ==> s[i] == rest[i - 1];
      if Distinct(s) {
        assert s[0] !in rest by {
          forall k | 0 <= k < |rest| ensures rest[k] != s[0] {
            assert rest[k] == s[k + 1];
          }
        }
        assert Distinct(rest) by {
          forall i, j | 0 <= i < j < |rest| ensures rest[i] != rest[j] {
            assert rest[i] == s[i + 1] && rest[j] == s[j + 1];
          }
        }
      }
      if forall x :: multiset(s)[x] <= 1 {
        assert multiset(s)[s[0]] == multiset(rest)[s[0]] + 1;
        assert multiset(s)[s[0]] <= 1;
        assert s[0] !in multiset(rest);
        assert forall x :: multiset(rest)[x] <= multiset(s)[x];
        forall i, j | 0 <= i < j < |s| ensures s[i] != s[j] {
          if i == 0 {
            assert s[j] == rest[j - 1];
          } else {
            assert s[i] == rest[i - 1] && s[j] == rest[j - 1];
          }
        }
      }
    }
  }

  /** Every shuffle of the eleven countries lists eleven different names. */
  lemma DealtCountries(t: seq<string>)
    requires IsShuffleOf(t, AllCountries)
    ensures Distinct(t) && |t| == 11
  {
    AllCountriesDistinct();
    ShuffleKeepsDistinct(AllCountries, t);
  }

  /** Shuffling keeps the length and keeps the names distinct. */
  lemma ShuffleKeepsDistinct(s: seq<string>, t: seq<string>)
    requires Distinct(s) && IsShuffleOf(t, s)
    ensures Distinct(t) && |t| == |s|
  {
    DistinctIffSingleCounts(s);
    DistinctIffSingleCounts(t);
    assert |multiset(t)| == |t| && |multiset(s)| == |s|;
  }

  /** The view as the app creates it: the property initialisers shuffle the
      eleven countries and pick one of the first three as the right answer. */
  method NewGame(shuffled: seq<string>, pick: int) returns (v: ContentView)
    requires IsShuffleOf(shuffled, AllCountries) && IsChoice(pick)
    ensures fresh(v) && v.Valid() && v.deck == multiset(AllCountries)
    ensures v.countries == shuffled && v.correctAnswer == pick
    ensures v.score == 0 && v.seqNum == 0
    ensures !v.showingScore && !v.showingEnd && v.scoreTitle == Untitled
  {
    DealtCountries(shuffled);
    v := new ContentView(shuffled, pick);
  }

  class ContentView {
    var countries: seq<string>
    var correctAnswer: int
    var showingScore: bool
    var scoreTitle: ScoreTitle
    var score: int
    /** The number of answers given, `seq` in the view (a reserved word
        here). */
    var seqNum: int
    var showingEnd: bool
    /** The names the list is made of, fixed when the view is created: those
        of `AllCountries` for the view `NewGame` builds. */
    ghost const deck: multiset<string>

    /** The list is always a reordering of the eleven countries (`deck`), so the
        three offered flags and the asked-for country are valid positions;
        the score never exceeds the number of answers. */
    ghost predicate Valid()
      reads this
    {
      multiset(countries) == deck && |countries| == 11 && Distinct(countries)
      && IsChoice(correctAnswer) && 0 <= score <= seqNum
    }

    /** The initial state over a list of eleven different names: that list, a
        random right answer, no alert, both counters at zero. */
    constructor (shuffled: seq<string>, pick: int)
      requires Distinct(shuffled) && |shuffled| == 11 && IsChoice(pick)
      ensures Valid() && deck == multiset(shuffled)
      ensures countries == shuffled && correctAnswer == pick
      ensures score == 0 && seqNum == 0
      ensures !showingScore && !showingEnd && scoreTitle == Untitled
    {
      deck := multiset(shuffled);
      countries := shuffled;
      correctAnswer := pick;
      showingScore := false;
      scoreTitle := Untitled;
      score := 0;
      seqNum := 0;
      showingEnd := false;
    }

    /** `askQuestion`: reshuffles, picks the new right answer, and raises
        the end-of-game alert once eight answers have been given. It never
        lowers that alert and leaves both counters alone. */
    method AskQuestion(shuffled: seq<string>, pick: int)
      requires Valid()
      requires IsShuffleOf(shuffled, countries) && IsChoice(pick)
      modifies this
      ensures Valid()
      ensures countries == shuffled && correctAnswer == pick
      ensures showingEnd == (old(showingEnd) || old(seqNum) >= GameLength)
      ensures score == old(score) && seqNum == old(seqNum)
      ensures showingScore == old(showingScore) && scoreTitle == old(scoreTitle)
    {
      ShuffleKeepsDistinct(countries, shuffled);
      countries := shuffled;
      correctAnswer := pick;
      if seqNum >= GameLength {
        showingEnd := true;
      }
    }

    /** `flagTapped`: one more answer; a point exactly when the tapped flag
        is the right one, whose title then names no other country. */
    method FlagTapped(number: int)
      requires Valid() && IsChoice(number)
      modifies this
      ensures Valid()
      ensures score == if number == old(correctAnswer) then old(score) + 1 else old(score)
      ensures seqNum == old(seqNum) + 1 && showingScore
      ensures scoreTitle == if number == correctAnswer then Right else Wrong(countries[number])
      ensures number == correctAnswer <==> countries[number] == countries[correctAnswer]
      ensures scoreTitle.Wrong? ==> scoreTitle.picked != countries[correctAnswer]
      ensures countries == old(countries) && correctAnswer == old(correctAnswer)
      ensures showingEnd == old(showingEnd)
    {
      if number == correctAnswer {
        scoreTitle := Right;
        score := score + 1;
      } else {
        scoreTitle := Wrong(countries[number]);
      }
      showingScore := true;
      seqNum := seqNum + 1;
    }

    /** The restart button of the end-of-game alert: asks a new question,
        then zeroes the answer count and the score. */
    method Restart(shuffled: seq<string>, pick: int)
      requires Valid()
      requires IsShuffleOf(shuffled, countries) && IsChoice(pick)
      modifies this
      ensures Valid()
      ensures countries == shuffled && correctAnswer == pick
      ensures seqNum == 0 && score == 0
      ensures showingEnd == (old(showingEnd) || old(seqNum) >= GameLength)
      ensures showingScore == old(showingScore) && scoreTitle == old(scoreTitle)
    {
      AskQuestion(shuffled, pick);
      seqNum := 0;
      score := 0;
    }
  }

}
