/**
 The bust experiment: draw cards at random from a fresh 52-card deck until the
 score passes 21 and report how many cards that took; over many games, the
 share of games that had bust by each number of cards. Each
 `random.randrange(len(cards))` is an explicit index input.
 */
module BlackjackBust {
  import opened Common

  /** A card label: '2'..'10' are numerals, then 'K', 'Q', 'J' and 'A'. */
  datatype Card = Numeral(n: int) | King | Queen | Jack | Ace

  /** The 13 labels in the order the deck lists them. */
  function Ranks(): seq<Card>
  {
    [Numeral(2), Numeral(3), Numeral(4), Numeral(5), Numeral(6), Numeral(7), Numeral(8),
     Numeral(9), Numeral(10), King, Queen, Jack, Ace]
  }

  /** `cards` at the start of `blackjack_game`. */
  function FullDeck(): seq<Card>
  {
    FourOfEach(Ranks())
  }

  /** Points of a card: the number on 2-10, 1 for the ace, 10 for a face. */
  function Value(c: Card): int
  {
    match c
    case Numeral(n) => n
    case Ace => 1
    case _ => 10
  }

  function Points(cs: seq<Card>): int
  {
    if |cs| == 0 then 0 else Points(cs[..|cs| - 1]) + Value(cs[|cs| - 1])
  }

  /**
   The deck has 52 cards, four of each of the 13 labels and nothing else,
   every card worth 1 to 10 points.
   */
  lemma DeckComposition()
    ensures |FullDeck()| == 52
    ensures forall c :: Count(FullDeck(), c) == (if c in Ranks() then 4 else 0)
    ensures forall c :: c in FullDeck() ==> 1 <= Value(c) <= 10
  {
    forall c ensures Count(FullDeck(), c) == (if c in Ranks() then 4 else 0) && (c in FullDeck() <==> c in Ranks()) {
      FourOfEachCounts(Ranks(), c);
      CountDistinct(Ranks(), c);
    }
  }

  /**
   The rest of `blackjack_game` with `deck` left and `drawn` drawn so far:
   while the score is at most 21, pop the card at the next index.
   `randrange(0)` on an empty deck raises ValueError, and popping an index
   outside the deck raises IndexError.
   */
  function Play(deck: seq<Card>, picks: seq<int>, drawn: seq<Card>): Fallible<seq<Card>>
    decreases |deck|
  {
    if Points(drawn) > 21 then Ok(drawn)
    else if |deck| == 0 then Fail(BadValue)
    else if |drawn| >= |picks| then Fail(DrawsExhausted)
    else
      var i := picks[|drawn|];
      if !(0 <= i < |deck|) then Fail(IndexOutOfRange)
      else Play(RemoveAt(deck, i), picks, drawn + [deck[i]])
  }

  /** The number of cards `blackjack_game` returns for the given indices. */
  function Game(picks: seq<int>): Fallible<nat>
  {
    match Play(FullDeck(), picks, [])
    case Fail(e) => Fail(e)
    case Ok(drawn) => Ok(|drawn|)
  }

  /** Each index is one `randrange(len(cards))` could return at its turn. */
  predicate LegalPicks(picks: seq<int>)
  {
    forall k :: 0 <= k < |picks| ==> 0 <= picks[k] < 52 - k
  }

  /** The game state: the deck holds what has not been drawn, and drawing stopped only past 21. */
  predicate Dealing(deck: seq<Card>, drawn: seq<Card>)
  {
    multiset(deck) + multiset(drawn) == multiset(FullDeck()) &&
    |deck| + |drawn| == 52 &&
    (|drawn| > 0 ==> Points(drawn[..|drawn| - 1]) <= 21) &&
    (forall c :: c in drawn ==> 1 <= Value(c) <= 10)
  }

  lemma PopKeepsCards(deck: seq<Card>, drawn: seq<Card>, i: nat)
    requires multiset(deck) + multiset(drawn) == multiset(FullDeck()) && i < |deck|
    ensures multiset(RemoveAt(deck, i)) + multiset(drawn + [deck[i]]) == multiset(FullDeck())
    ensures deck[i] in FullDeck()
  {
    var r := RemoveAt(deck, i);
    assert deck == r[..i] + [deck[i]] + r[i..];
    assert r == r[..i] + r[i..];
    assert multiset(deck) == multiset(r) + multiset{deck[i]};
    assert deck[i] in multiset(FullDeck());
  }

  lemma CardValue(c: Card)
    requires c in FullDeck()
    ensures 1 <= Value(c) <= 10
  {
    DeckComposition();
  }

  lemma DealingStep(deck: seq<Card>, drawn: seq<Card>, i: nat)
    requires Dealing(deck, drawn) && i < |deck| && Points(drawn) <= 21
    ensures Dealing(RemoveAt(deck, i), drawn + [deck[i]])
  {
    PopKeepsCards(deck, drawn, i);
    CardValue(deck[i]);
    assert (drawn + [deck[i]])[..|drawn|] == drawn;
  }

  /** Between 1 and 10 points a card. */
  lemma {:induction false} PointsPerCard(cs: seq<Card>)
    requires forall c :: c in cs ==> 1 <= Value(c) <= 10
    ensures |cs| <= Points(cs) <= 10 * |cs|
  {
    if |cs| > 0 {
      assert cs == cs[..|cs| - 1] + [cs[|cs| - 1]];
      PointsPerCard(cs[..|cs| - 1]);
    }
  }

  /** The cards drawn when the score first passes 21: the last one took it there. */
  predicate Busted(d: seq<Card>)
  {
    Points(d) > 21 && |d| >= 3 && Points(d[..|d| - 1]) <= 21 && multiset(d) <= multiset(FullDeck())
  }

  lemma BustedNow(deck: seq<Card>, drawn: seq<Card>)
    requires Dealing(deck, drawn) && Points(drawn) > 21
    ensures Busted(drawn)
  {
    PointsPerCard(drawn);
  }

  /** While the score is at most 21 at most 21 cards are out, so the deck still has cards. */
  lemma DeckLeft(deck: seq<Card>, drawn: seq<Card>)
    requires Dealing(deck, drawn) && Points(drawn) <= 21
    ensures |deck| > 0 && |drawn| <= 21
  {
    PointsPerCard(drawn);
  }

  /**
   A finished game drew cards of the deck until the score first passed 21:
   the last card took it over 21 from at most 21, so at least 3 cards were
   drawn. With legal indices the deck never runs dry (every card is worth a
   point, so at most 21 of the 52 are drawn while the score is at most 21),
   so only missing indices can stop a game.
   */
  lemma {:induction false} PlayShape(deck: seq<Card>, picks: seq<int>, drawn: seq<Card>)
    requires Dealing(deck, drawn)
    ensures Play(deck, picks, drawn).Ok? ==> Busted(Play(deck, picks, drawn).value)
    ensures LegalPicks(picks) && Play(deck, picks, drawn).Fail? ==> Play(deck, picks, drawn).error == DrawsExhausted
    decreases |deck|
  {
    if Points(drawn) > 21 {
      BustedNow(deck, drawn);
    } else {
      DeckLeft(deck, drawn);
      if |drawn| < |picks| {
        var i := picks[|drawn|];
        if 0 <= i < |deck| {
          DealingStep(deck, drawn, i);
          PlayShape(RemoveAt(deck, i), picks, drawn + [deck[i]]);
        }
      }
    }
  }

  lemma GameShape(picks: seq<int>)
    ensures Play(FullDeck(), picks, []).Ok? ==> Busted(Play(FullDeck(), picks, []).value)
    ensures Game(picks).Ok? ==> Game(picks).value >= 3
    ensures LegalPicks(picks) && Game(picks).Fail? ==> Game(picks).error == DrawsExhausted
  {
    DeckComposition();
    assert multiset(FullDeck()) + multiset([]) == multiset(FullDeck());
    PlayShape(FullDeck(), picks, []);
  }

  /** `blackjack_game`: the `while score <= 21` loop. */
  method BlackjackGame(picks: seq<int>) returns (r: Fallible<nat>)
    ensures r == Game(picks)
  {
    var deck := FullDeck();
    var drawn: seq<Card> := [];
    var score := 0;
    while score <= 21
      invariant score == Points(drawn)
      invariant Play(deck, picks, drawn) == Play(FullDeck(), picks, [])
      decreases |deck|
    {
      if |deck| == 0 {
        return Fail(BadValue);
      }
      if |drawn| >= |picks| {
        return Fail(DrawsExhausted);
      }
      var i := picks[|drawn|];
      if !(0 <= i < |deck|) {
        return Fail(IndexOutOfRange);
      }
      var card := deck[i];
      deck := RemoveAt(deck, i);
      assert (drawn + [card])[..|drawn|] == drawn;
      drawn := drawn + [card];
      score := score + Value(card);
    }
    return Ok(|drawn|);
  }
}
