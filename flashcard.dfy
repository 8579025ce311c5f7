/** The flashcard quiz: a deck of cards, a cursor on the current card and the
    score and streak counters, changed in place by the page's buttons. */
module Flashcard {
  import opened Wrappers
  import opened Strings

  /** A card as the quiz stores it. The `type` field of a card selects the
      constructor; a card whose `type` is none of "mc", "input", "flip" keeps
      only its type and question. */
  datatype Card =
    | MultipleChoice(question: string, choices: seq<string>, answer: string)
    | FreeInput(question: string, answer: string)
    | Flip(question: string, back: string)
    | Bare(kind: string, question: string)

  /** The card's `answer` field, which only multiple-choice and free-input
      cards have. */
  function AnswerOf(c: Card): Option<string> {
    match c
    case MultipleChoice(_, _, a) => Some(a)
    case FreeInput(_, a) => Some(a)
    case _ => None
  }

  /** The four built-in elementary-math cards. */
  function Preloaded(): (deck: seq<Card>)
    ensures |deck| == 4
    ensures forall k :: 0 <= k < |deck| && deck[k].MultipleChoice? ==> deck[k].answer in deck[k].choices
    ensures forall k :: 0 <= k < |deck| && !deck[k].Flip? ==> AnswerOf(deck[k]).Some?
  {
    [ MultipleChoice("2 + 2 = ?", ["3", "4", "5", "6"], "4"),
      MultipleChoice("5 - 3 = ?", ["1", "2", "3", "4"], "2"),
      FreeInput("3 x 4 = ?", "12"),
      Flip("What is the square of 5?", "25") ]
  }

  /** A stored counter read back with `parseInt(...) || 0`: `None` stands for a
      missing or unparseable entry, which reads as 0. */
  function StoredCount(saved: Option<int>): int {
    match saved
    case Some(n) => n
    case None => 0
  }

  /** `pieces.map(c => c.trim())`: each piece trimmed, in order; a piece free
      of commas stays free of them. */
  function TrimAll(pieces: seq<string>): (r: seq<string>)
    ensures |r| == |pieces|
    ensures forall k :: 0 <= k < |r| ==> r[k] == Trim(pieces[k])
    ensures forall k :: 0 <= k < |r| ==> IsTrimmed(r[k])
    ensures forall k :: 0 <= k < |r| && ',' !in pieces[k] ==> ',' !in r[k]
  {
    var r := seq(|pieces|, k requires 0 <= k < |pieces| => Trim(pieces[k]));
    assert forall k :: 0 <= k < |r| && ',' !in pieces[k] ==> ',' !in r[k] by {
      forall k | 0 <= k < |r| && ',' !in pieces[k] ensures ',' !in r[k] {
        if ',' in Trim(pieces[k]) {
          TrimChars(pieces[k], ',');
        }
      }
    }
    r
  }

  /** The card built by the add-card form from its fields: the question is kept
      as typed, answers, the flip side and each comma-separated choice are
      trimmed. */
  function NewCard(kind: string, question: string, mcChoices: string, mcAnswer: string,
                   inputAnswer: string, flipBack: string): (c: Card)
    ensures c.question == question
    ensures c.MultipleChoice? <==> kind == "mc"
    ensures c.FreeInput? <==> kind == "input"
    ensures c.Flip? <==> kind == "flip"
    ensures c.Bare? ==> c.kind == kind
    ensures c.MultipleChoice? ==>
      c.choices == TrimAll(Split(mcChoices, ',')) &&
      |c.choices| == |Split(mcChoices, ',')| &&
      (forall k :: 0 <= k < |c.choices| ==> IsTrimmed(c.choices[k]) && ',' !in c.choices[k]) &&
      c.answer == Trim(mcAnswer)
    ensures c.FreeInput? ==> c.answer == Trim(inputAnswer)
    ensures c.Flip? ==> c.back == Trim(flipBack)
  {
    if kind == "mc" then MultipleChoice(question, TrimAll(Split(mcChoices, ',')), Trim(mcAnswer))
    else if kind == "input" then FreeInput(question, Trim(inputAnswer))
    else if kind == "flip" then Flip(question, Trim(flipBack))
    else Bare(kind, question)
  }

  /** Trimming pieces that are already trimmed changes none of them. */
  lemma TrimAllTrimmed(pieces: seq<string>)
    requires forall k :: 0 <= k < |pieces| ==> IsTrimmed(pieces[k])
    ensures TrimAll(pieces) == pieces
  {
    var trimmed := TrimAll(pieces);
    forall k | 0 <= k < |pieces| ensures trimmed[k] == pieces[k] {
      assert [] + pieces[k] + [] == pieces[k];
      TrimPadded([], pieces[k], []);
    }
  }

  /** Choices typed as a comma-separated list of already-trimmed, comma-free
      entries come back as exactly those entries, in order. */
  lemma TypedChoicesKept(parts: seq<string>, question: string, mcAnswer: string,
                         inputAnswer: string, flipBack: string)
    requires |parts| >= 1
    requires forall k :: 0 <= k < |parts| ==> IsTrimmed(parts[k]) && ',' !in parts[k]
    ensures NewCard("mc", question, Join(parts, ','), mcAnswer, inputAnswer, flipBack).choices == parts
  {
    var c := NewCard("mc", question, Join(parts, ','), mcAnswer, inputAnswer, flipBack);
    assert c.choices == TrimAll(Split(Join(parts, ','), ','));
    SplitJoin(parts, ',');
    TrimAllTrimmed(parts);
  }

  /** What an answer does: counts as right, counts as wrong, or finds no
      current card (the source then fails before changing anything). */
  datatype Verdict = Correct | Incorrect | NoCard

  class QuizSession {
    var deck: seq<Card>
    var currentIndex: int
    var score: int
    var streak: int
    var soundOn: bool

    /** The cursor is on a card, or the deck is empty and the cursor is 0. */
    ghost predicate Valid()
      reads this
    {
      0 <= currentIndex && (currentIndex < |deck| || (deck == [] && currentIndex == 0))
    }

    /** Start-up: the stored deck if there is one, else the preloaded cards;
        the stored counters, 0 where missing; the cursor on the first card. */
    constructor (savedDeck: Option<seq<Card>>, savedScore: Option<int>, savedStreak: Option<int>)
      ensures Valid()
      ensures savedDeck.None? ==> deck == Preloaded()
      ensures savedDeck.Some? ==> deck == savedDeck.value
      ensures score == StoredCount(savedScore) && streak == StoredCount(savedStreak)
      ensures currentIndex == 0 && soundOn
    {
      deck := if savedDeck.Some? then savedDeck.value else Preloaded();
      score := StoredCount(savedScore);
      streak := StoredCount(savedStreak);
      currentIndex := 0;
      soundOn := true;
    }

    /** The card on screen, if the deck has one. */
    function CurrentCard(): (c: Option<Card>)
      reads this
      requires Valid()
      ensures c.Some? <==> deck != []
      ensures c.Some? ==> c.value == deck[currentIndex] && c.value in deck
    {
      if currentIndex < |deck| then Some(deck[currentIndex]) else None
    }

    /** Checks `val` against the current card's answer: a match raises score
        and streak by one, anything else zeroes the streak and keeps the score.
        Flip and untyped cards have no answer, so every value is wrong for them. */
    method CheckAnswer(val: string) returns (v: Verdict)
      requires Valid()
      modifies this`score, this`streak
      ensures Valid()
      ensures v == NoCard <==> deck == []
      ensures v == Correct <==> deck != [] && AnswerOf(deck[currentIndex]) == Some(val)
      ensures v == Correct ==> score == old(score) + 1 && streak == old(streak) + 1
      ensures v == Incorrect ==> score == old(score) && streak == 0
      ensures v == NoCard ==> score == old(score) && streak == old(streak)
    {
      var card := CurrentCard();
      if card.None? {
        return NoCard;
      }
      if AnswerOf(card.value) == Some(val) {
        score := score + 1;
        streak := streak + 1;
        v := Correct;
      } else {
        streak := 0;
        v := Incorrect;
      }
    }

    /** Moves to the next card unless the cursor is on the last one. */
    method Next()
      requires Valid()
      modifies this`currentIndex
      ensures Valid()
      ensures old(currentIndex) < |deck| - 1 ==> currentIndex == old(currentIndex) + 1
      ensures old(currentIndex) >= |deck| - 1 ==> currentIndex == old(currentIndex)
    {
      if currentIndex < |deck| - 1 {
        currentIndex := currentIndex + 1;
      }
    }

    /** Moves to the previous card unless the cursor is on the first one. */
    method Prev()
      requires Valid()
      modifies this`currentIndex
      ensures Valid()
      ensures old(currentIndex) > 0 ==> currentIndex == old(currentIndex) - 1
      ensures old(currentIndex) == 0 ==> currentIndex == 0
    {
      if currentIndex > 0 {
        currentIndex := currentIndex - 1;
      }
    }

    method ToggleSound()
      modifies this`soundOn
      ensures soundOn == !old(soundOn)
    {
      soundOn := !soundOn;
    }

    /** Clears storage and reloads: with nothing stored the deck is the
        preloaded one, and score, streak and cursor are all 0. */
    method Reset()
      modifies this`deck, this`score, this`streak, this`currentIndex
      ensures Valid()
      ensures deck == Preloaded()
      ensures score == 0 && streak == 0 && currentIndex == 0
    {
      deck := Preloaded();
      score := StoredCount(None);
      streak := StoredCount(None);
      currentIndex := 0;
    }

    /** Shuffles the deck with a sort whose comparator answers at random, then
        goes back to the first card. `coin(k)` is the answer to the k-th
        comparison: true means "out of order", and the two cards swap. */
    method Shuffle(coin: nat -> bool)
      requires Valid()
      modifies this`deck, this`currentIndex
      ensures Valid()
      ensures |deck| == |old(deck)| && multiset(deck) == multiset(old(deck))
      ensures currentIndex == 0
    {
      var i := 1;
      var k := 0;
      while i < |deck|
        invariant |deck| == |old(deck)|
        invariant multiset(deck) == multiset(old(deck))
      {
        var j := i;
        while j > 0
          invariant 0 <= j <= i < |deck|
          invariant |deck| == |old(deck)|
          invariant multiset(deck) == multiset(old(deck))
        {
          var outOfOrder := coin(k);
          k := k + 1;
          if !outOfOrder {
            break;
          }
          deck := deck[j - 1 := deck[j]][j := deck[j - 1]];
          j := j - 1;
        }
        i := i + 1;
      }
      currentIndex := 0;
    }

    /** "Mark known": counts the card as answered right. */
    method MarkKnown()
      modifies this`score, this`streak
      ensures score == old(score) + 1 && streak == old(streak) + 1
    {
      score := score + 1;
      streak := streak + 1;
    }

    /** Appends the card built from the add-card form; nothing else changes. */
    method AddCard(kind: string, question: string, mcChoices: string, mcAnswer: string,
                   inputAnswer: string, flipBack: string)
      requires Valid()
      modifies this`deck
      ensures Valid()
      ensures deck == old(deck) + [NewCard(kind, question, mcChoices, mcAnswer, inputAnswer, flipBack)]
    {
      deck := deck + [NewCard(kind, question, mcChoices, mcAnswer, inputAnswer, flipBack)];
    }

    /** Puts the preloaded cards back and returns to the first one; the
        counters are kept. */
    method ImportPreloaded()
      modifies this`deck, this`currentIndex
      ensures Valid()
      ensures deck == Preloaded() && currentIndex == 0
    {
      deck := Preloaded();
      currentIndex := 0;
    }
  }
}
