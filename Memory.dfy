/**
 * The memory-card game: a deck of every face twice, flipped two at a time; equal
 * contents are matched for good, unequal ones are turned back by a later timeout, and
 * the game reports a score once every card is matched.
 */
module MemoryGame {
  import opened Wrappers
  import opened Text
  import Lists

  /** A face the lesson supplies. */
  datatype Face = Face(content: string, description: string)

  datatype Card = Card(id: string, content: string, description: string, isFlipped: bool, isMatched: bool)

  /** Card i of the unshuffled deck: face i mod n, with id `${i}`. */
  function DeckCard(faces: seq<Face>, i: nat): Card
    requires i < 2 * |faces|
  {
    var f := if i < |faces| then faces[i] else faces[i - |faces|];
    Card(NatToString(i), f.content, f.description, false, false)
  }

  /** The deck before shuffling: the faces twice over, card i with id `${i}`, none flipped or matched. */
  function Deck(faces: seq<Face>): (cards: seq<Card>)
    ensures |cards| == 2 * |faces|
  {
    seq(2 * |faces|, i requires 0 <= i < 2 * |faces| => DeckCard(faces, i))
  }

  /** Every face appears twice, at i and i + n, and no card starts flipped or matched. */
  lemma DeckShape(faces: seq<Face>, i: nat)
    requires i < |faces|
    ensures Deck(faces)[i].content == Deck(faces)[i + |faces|].content == faces[i].content
    ensures Deck(faces)[i].description == Deck(faces)[i + |faces|].description == faces[i].description
    ensures !Deck(faces)[i].isFlipped && !Deck(faces)[i].isMatched
    ensures !Deck(faces)[i + |faces|].isFlipped && !Deck(faces)[i + |faces|].isMatched
  {
  }

  /** No two cards of the deck share an id. */
  lemma DeckIdsDistinct(faces: seq<Face>, i: nat, j: nat)
    requires i < j < 2 * |faces|
    ensures Deck(faces)[i].id != Deck(faces)[j].id
  {
    if NatToString(i) == NatToString(j) {
      NatToStringInjective(i, j);
    }
  }

  /** Index k holds the first card with the id. */
  predicate FirstCardWith(cards: seq<Card>, id: string, k: int) {
    0 <= k < |cards| && cards[k].id == id && forall j :: 0 <= j < k ==> cards[j].id != id
  }

  /** `cards.find(card => card.id === id)`: the first card with the id, if any. */
  function FindById(cards: seq<Card>, id: string): (c: Option<Card>)
    ensures c.Some? ==> c.value in cards && c.value.id == id
    ensures c.Some? ==> exists k :: FirstCardWith(cards, id, k) && cards[k] == c.value
    ensures c.None? <==> forall k :: 0 <= k < |cards| ==> cards[k].id != id
  {
    if cards == [] then None
    else if cards[0].id == id then
      assert FirstCardWith(cards, id, 0);
      Some(cards[0])
    else
      var rest := FindById(cards[1..], id);
      assert forall k :: 1 <= k < |cards| ==> cards[k] == cards[1..][k - 1];
      if rest.Some? then FirstCardShifted(cards, id, rest.value); rest else rest
  }

  /** The first card with the id in the tail is the first in the whole deck when the head has another id. */
  lemma FirstCardShifted(cards: seq<Card>, id: string, c: Card)
    requires cards != [] && cards[0].id != id
    requires exists k :: FirstCardWith(cards[1..], id, k) && cards[1..][k] == c
    ensures exists k :: FirstCardWith(cards, id, k) && cards[k] == c
  {
    var k :| FirstCardWith(cards[1..], id, k) && cards[1..][k] == c;
    forall j | 0 <= j < k + 1
      ensures cards[j].id != id
    {
      if j > 0 {
        assert cards[j] == cards[1..][j - 1];
      }
    }
    assert FirstCardWith(cards, id, k + 1);
  }

  /** `card?.content`: a missing card has the content `undefined`. */
  function ContentOf(c: Option<Card>): Option<string> {
    match c
    case None => None
    case Some(card) => Some(card.content)
  }

  /** The cards of the pair become matched; nothing else changes. */
  function MarkMatched(cards: seq<Card>, pair: seq<string>): (r: seq<Card>)
    ensures |r| == |cards|
    ensures forall k :: 0 <= k < |cards| && cards[k].id in pair ==> r[k].isMatched
  {
    seq(|cards|, k requires 0 <= k < |cards| => if cards[k].id in pair then cards[k].(isMatched := true) else cards[k])
  }

  /** Turning cards never changes an id or a content, and never un-matches a card. */
  lemma MatchingKeepsCards(cards: seq<Card>, pair: seq<string>)
    ensures |MarkMatched(cards, pair)| == |cards|
    ensures forall k :: 0 <= k < |cards| ==>
              && MarkMatched(cards, pair)[k].id == cards[k].id
              && MarkMatched(cards, pair)[k].content == cards[k].content
              && (cards[k].isMatched ==> MarkMatched(cards, pair)[k].isMatched)
              && (cards[k].id !in pair ==> MarkMatched(cards, pair)[k] == cards[k])
              && (cards[k].id in pair ==> MarkMatched(cards, pair)[k].isMatched)
  {
  }

  /** `allMatched`: every card is matched already or is one of the pair just turned. */
  predicate AllMatched(cards: seq<Card>, pair: seq<string>) {
    forall k :: 0 <= k < |cards| ==> cards[k].isMatched || cards[k].id in pair
  }

  /** `calculateScore(moves)` with n = cards.length / 2 perfect moves: 100 less `Math.floor((moves - n) * (100 / n))`, never below 0. */
  function CalculateScore(moves: int, perfectMoves: int): (s: int)
    requires perfectMoves > 0
    ensures s >= 0
  {
    var raw := 100 - FloorDiv((moves - perfectMoves) * 100, perfectMoves);
    if raw > 0 then raw else 0
  }

  /** n moves for n pairs score exactly 100; fewer score more; more never score more. */
  lemma ScoreLandmarks(moves: int, perfectMoves: int)
    requires perfectMoves > 0
    ensures moves == perfectMoves ==> CalculateScore(moves, perfectMoves) == 100
    ensures moves < perfectMoves ==> CalculateScore(moves, perfectMoves) > 100
    ensures moves >= 2 * perfectMoves ==> CalculateScore(moves, perfectMoves) == 0
  {
    var x := (moves - perfectMoves) * 100;
    var q := FloorDiv(x, perfectMoves);
    if moves == perfectMoves {
      assert x == 0;
      if q < 0 {
        MulMonotone(q + 1, 0, perfectMoves);
      } else if q > 0 {
        MulMonotone(1, q, perfectMoves);
      }
    }
    if moves < perfectMoves {
      assert x < 0;
      if q >= 0 {
        MulMonotone(0, q, perfectMoves);
      }
    }
    if moves >= 2 * perfectMoves {
      MulMonotone(perfectMoves, moves - perfectMoves, 100);
      if q < 100 {
        MulMonotone(q + 1, 100, perfectMoves);
      }
    }
  }

  lemma ScoreNonIncreasing(a: int, b: int, perfectMoves: int)
    requires perfectMoves > 0 && a <= b
    ensures CalculateScore(b, perfectMoves) <= CalculateScore(a, perfectMoves)
  {
    var x := (a - perfectMoves) * 100;
    var y := (b - perfectMoves) * 100;
    FloorDivMonotone(x, y, perfectMoves);
  }

  class MemoryBoard {
    var cards: seq<Card>
    var flippedCards: seq<string>
    var moves: nat
    var isLocked: bool
    var gameStarted: bool
    /** A mismatch has scheduled the timeout that turns the pair back. */
    var unflipPending: bool
    /** Every score passed to `onComplete`, in order. */
    var reported: seq<int>

    /** The deck has an even size, no card is ever shown through `isFlipped`, and the board is locked exactly while a mismatch waits. */
    ghost predicate Valid()
      reads this
    {
      && |cards| % 2 == 0
      && (forall k :: 0 <= k < |cards| ==> !cards[k].isFlipped)
      && |flippedCards| <= 2
      && (isLocked <==> unflipPending)
      && (unflipPending <==> |flippedCards| == 2)
    }

    /** The mount effect: the doubled deck, shuffled with the supplied random choices. */
    constructor(faces: seq<Face>, choices: seq<nat>)
      requires Lists.ValidChoices(2 * |faces|, choices)
      ensures Valid()
      ensures |cards| == 2 * |faces| && multiset(cards) == multiset(Deck(faces))
      ensures flippedCards == [] && moves == 0 && !isLocked && !gameStarted && !unflipPending && reported == []
    {
      var shuffled := Lists.Shuffle(Deck(faces), choices);
      cards := shuffled;
      flippedCards := [];
      moves := 0;
      isLocked := false;
      gameStarted := false;
      unflipPending := false;
      reported := [];
      new;
      forall k | 0 <= k < |cards| ensures !cards[k].isFlipped {
        assert cards[k] in multiset(Deck(faces));
      }
    }

    /** A click `handleCardClick` ignores. */
    predicate Ignored(i: nat)
      reads this
      requires i < |cards|
    {
      isLocked || |flippedCards| == 2 || cards[i].id in flippedCards || cards[i].isMatched
    }

    /** Whether the two turned cards show the same content (`firstCard?.content === secondCard?.content`). */
    predicate SameContent(pair: seq<string>)
      reads this
      requires |pair| == 2
    {
      ContentOf(FindById(cards, pair[0])) == ContentOf(FindById(cards, pair[1]))
    }

    /** The second card of a pair: one more move, then match for good or wait for the timeout. */
    method TurnPair(pair: seq<string>)
      modifies this
      requires Valid() && |pair| == 2 && |cards| > 0 && !isLocked && !unflipPending
      ensures Valid()
      ensures moves == old(moves) + 1 && gameStarted == old(gameStarted)
      ensures old(SameContent(pair)) ==> cards == MarkMatched(old(cards), pair) && flippedCards == [] && !isLocked
      ensures !old(SameContent(pair)) ==> cards == old(cards) && flippedCards == pair && isLocked && unflipPending
      ensures reported == old(reported) +
                (if old(SameContent(pair)) && AllMatched(old(cards), pair) then [CalculateScore(old(moves), |old(cards)| / 2)] else [])
    {
      flippedCards := pair;
      isLocked := true;
      var seenMoves := moves;
      moves := moves + 1;
      var first := FindById(cards, pair[0]);
      var second := FindById(cards, pair[1]);
      if ContentOf(first) == ContentOf(second) {
        var allMatched := AllMatched(cards, pair);
        var n := |cards| / 2;
        cards := MarkMatched(cards, pair);
        flippedCards := [];
        isLocked := false;
        if allMatched {
          reported := reported + [CalculateScore(seenMoves, n)];
        }
      } else {
        unflipPending := true;
      }
    }

    /**
     * `handleCardClick` on the i-th card shown. The first card of a pair is only turned;
     * the second costs one move and locks the board; equal contents match both for good
     * and unlock, and if that finishes the board the score is computed from the moves
     * read before this one; unequal contents stay turned until the timeout.
     */
    method HandleCardClick(i: nat)
      modifies this
      requires Valid() && i < |cards|
      ensures Valid()
      ensures old(Ignored(i)) ==>
                cards == old(cards) && flippedCards == old(flippedCards) && moves == old(moves)
                && isLocked == old(isLocked) && unflipPending == old(unflipPending) && reported == old(reported)
                && gameStarted == old(gameStarted)
      ensures !old(Ignored(i)) ==> gameStarted
      ensures !old(Ignored(i)) && |old(flippedCards)| == 0 ==>
                flippedCards == [old(cards)[i].id] && cards == old(cards) && moves == old(moves)
                && !isLocked && reported == old(reported)
      ensures !old(Ignored(i)) && |old(flippedCards)| == 1 ==>
                var pair := old(flippedCards) + [old(cards)[i].id];
                && moves == old(moves) + 1
                && (old(SameContent(pair)) ==> cards == MarkMatched(old(cards), pair) && flippedCards == [] && !isLocked)
                && (!old(SameContent(pair)) ==> cards == old(cards) && flippedCards == pair && isLocked && unflipPending)
                && reported == old(reported) +
                     (if old(SameContent(pair)) && AllMatched(old(cards), pair) then [CalculateScore(old(moves), |old(cards)| / 2)] else [])
    {
      if isLocked || |flippedCards| == 2 || cards[i].id in flippedCards || cards[i].isMatched {
        return;
      }
      if !gameStarted {
        gameStarted := true;
      }
      var newFlipped := flippedCards + [cards[i].id];
      if |newFlipped| == 2 {
        TurnPair(newFlipped);
      } else {
        flippedCards := newFlipped;
      }
    }

    /** The mismatch timeout: the pair turns back and the board unlocks; matched flags stay as they are. */
    method FireUnflip()
      modifies this
      requires Valid()
      ensures Valid()
      ensures old(unflipPending) ==> flippedCards == [] && !isLocked && !unflipPending
      ensures !old(unflipPending) ==> flippedCards == old(flippedCards) && isLocked == old(isLocked) && unflipPending == old(unflipPending)
      ensures cards == old(cards) && moves == old(moves) && reported == old(reported) && gameStarted == old(gameStarted)
    {
      if unflipPending {
        flippedCards := [];
        isLocked := false;
        unflipPending := false;
      }
    }
  }
}
