/**
 Blackjack with a playing strategy: the player either follows the basic
 strategy tables or stands at a fixed threshold, then the croupier draws to
 17. A card is the integer its label stands for: '2'..'10', '11' for an ace
 (kings, queens and jacks are '10'), and '1' for an ace demoted to one point.
 Each `random.randrange(len(cards))` is an explicit index input; all draws of
 one game come from one sequence of indices, in the order they are made.
 */
module BlackjackStrategy {
  import opened Common
  import BlackjackBust

  /** The labels, each four times in the deck; the four '10's stand for 10, K, Q and J. */
  function Labels(): seq<int>
  {
    [2, 3, 4, 5, 6, 7, 8, 9, 10, 10, 10, 10, 11]
  }

  /** `cards` at the start of `basic_strategy` and `threshold_value_strategy`. */
  function Deck(): seq<int>
  {
    FourOfEach(Labels())
  }

  /** 52 cards: four of each of 2..9, sixteen 10s and four aces worth 11. */
  lemma DeckComposition()
    ensures |Deck()| == 52
    ensures forall v :: Count(Deck(), v) == (if 2 <= v <= 9 || v == 11 then 4 else if v == 10 then 16 else 0)
    ensures forall v :: v in Deck() ==> 2 <= v <= 11
  {
    forall v
      ensures Count(Deck(), v) == (if 2 <= v <= 9 || v == 11 then 4 else if v == 10 then 16 else 0)
      ensures v in Deck() <==> v in Labels()
    {
      FourOfEachCounts(Labels(), v);
      LabelCounts(v);
    }
  }

  lemma LabelCounts(v: int)
    ensures Count(Labels(), v) == (if 2 <= v <= 9 || v == 11 then 1 else if v == 10 then 4 else 0)
  {
    var l := Labels();
    assert l == [2, 3, 4, 5, 6, 7, 8, 9] + [10, 10, 10, 10] + [11];
    CountConcat([2, 3, 4, 5, 6, 7, 8, 9] + [10, 10, 10, 10], [11], v);
    CountConcat([2, 3, 4, 5, 6, 7, 8, 9], [10, 10, 10, 10], v);
    CountDistinct([2, 3, 4, 5, 6, 7, 8, 9], v);
    CountDistinct([11], v);
    FourCopies(10, v);
    CountDistinct([10], v);
  }

  /** The cards left and how many indices the game has used. */
  datatype Table = Table(deck: seq<int>, used: nat)

  datatype Pop = Pop(card: int, table: Table)

  /**
   `cards.pop(random.randrange(len(cards)))` with the next index: an empty deck
   makes `randrange(0)` raise ValueError, and an index outside the deck makes
   `pop` raise IndexError.
   */
  function Draw(t: Table, picks: seq<int>): (r: Fallible<Pop>)
    ensures r.Ok? ==> r.value.table.used == t.used + 1 && |r.value.table.deck| == |t.deck| - 1
    ensures r.Ok? ==> multiset(t.deck) == multiset(r.value.table.deck) + multiset{r.value.card}
  {
    if |t.deck| == 0 then Fail(BadValue)
    else if t.used >= |picks| then Fail(DrawsExhausted)
    else
      var i := picks[t.used];
      if !(0 <= i < |t.deck|) then Fail(IndexOutOfRange)
      else
        var rest := RemoveAt(t.deck, i);
        assert t.deck == rest[..i] + [t.deck[i]] + rest[i..] && rest == rest[..i] + rest[i..];
        Ok(Pop(t.deck[i], Table(rest, t.used + 1)))
  }

  /** The index of the first `x` in `s`. */
  function IndexOf(s: seq<int>, x: int): (i: nat)
    requires x in s
    ensures i < |s| && s[i] == x && x !in s[..i]
  {
    if s[0] == x then 0 else 1 + IndexOf(s[1..], x)
  }

  /**
   The ace rule: a hand over 21 holding an '11' has its first '11' removed
   and a '1' appended; any other hand is kept.
   */
  function Demote(hand: seq<int>): seq<int>
  {
    if 11 in hand && Sum(hand) > 21 then RemoveAt(hand, IndexOf(hand, 11)) + [1] else hand
  }

  lemma {:induction false} SumRemoveAt(s: seq<int>, i: nat)
    requires i < |s|
    ensures Sum(RemoveAt(s, i)) == Sum(s) - s[i]
  {
    var r := RemoveAt(s, i);
    SumConcat(r[..i] + [s[i]], r[i..]);
    SumConcat(r[..i], [s[i]]);
    SumConcat(r[..i], r[i..]);
    assert r == r[..i] + r[i..];
    assert Sum([s[i]]) == s[i];
  }

  lemma {:induction false} CountRemoveAt(s: seq<int>, i: nat, v: int)
    requires i < |s|
    ensures Count(RemoveAt(s, i), v) == Count(s, v) - (if s[i] == v then 1 else 0)
  {
    var r := RemoveAt(s, i);
    CountConcat(r[..i] + [s[i]], r[i..], v);
    CountConcat(r[..i], [s[i]], v);
    CountConcat(r[..i], r[i..], v);
    assert r == r[..i] + r[i..];
    assert Count([s[i]], v) == Count([], v) + (if s[i] == v then 1 else 0);
  }

  /**
   Demotion turns exactly one '11' into a '1': the sum drops by 10, the hand
   keeps its size, and nothing else changes; a hand without an '11' or not
   over 21 is kept.
   */
  lemma DemoteShape(hand: seq<int>)
    ensures |Demote(hand)| == |hand|
    ensures 11 in hand && Sum(hand) > 21 ==>
      Sum(Demote(hand)) == Sum(hand) - 10 &&
      Count(Demote(hand), 11) == Count(hand, 11) - 1 && Count(Demote(hand), 1) == Count(hand, 1) + 1 &&
      forall v :: v != 1 && v != 11 ==> Count(Demote(hand), v) == Count(hand, v)
    ensures !(11 in hand && Sum(hand) > 21) ==> Demote(hand) == hand
  {
    if 11 in hand && Sum(hand) > 21 {
      var i := IndexOf(hand, 11);
      SumRemoveAt(hand, i);
      SumAppend(RemoveAt(hand, i), 1);
      forall v
        ensures Count(Demote(hand), v) == Count(hand, v) - (if v == 11 then 1 else 0) + (if v == 1 then 1 else 0)
      {
        DemoteCount(hand, v);
      }
    }
  }

  lemma DemoteCount(hand: seq<int>, v: int)
    requires 11 in hand && Sum(hand) > 21
    ensures Count(Demote(hand), v) == Count(hand, v) - (if v == 11 then 1 else 0) + (if v == 1 then 1 else 0)
  {
    var i := IndexOf(hand, 11);
    CountRemoveAt(hand, i, v);
    CountAppend(RemoveAt(hand, i), v, 1);
  }

  /** A table entry: 'S' stands, 'H' hits. */
  datatype Move = Stand | Hit

  /** `soft_strategy`: the key 'row, card' is the pair (row, card). */
  const SoftTable: map<(int, int), Move> := map[
    (8, 2) := Stand, (8, 3) := Stand, (8, 4) := Stand, (8, 5) := Stand, (8, 6) := Stand,
    (8, 7) := Stand, (8, 8) := Stand, (8, 9) := Stand, (8, 10) := Stand, (8, 11) := Stand,
    (7, 2) := Stand, (7, 3) := Stand, (7, 4) := Stand, (7, 5) := Stand, (7, 6) := Stand,
    (7, 7) := Stand, (7, 8) := Stand, (7, 9) := Hit, (7, 10) := Hit, (7, 11) := Hit,
    (6, 2) := Hit, (6, 3) := Hit, (6, 4) := Hit, (6, 5) := Hit, (6, 6) := Hit,
    (6, 7) := Hit, (6, 8) := Hit, (6, 9) := Hit, (6, 10) := Hit, (6, 11) := Hit
  ]

  /** `hard_strategy`. */
  const HardTable: map<(int, int), Move> := map[
    (17, 2) := Stand, (17, 3) := Stand, (17, 4) := Stand, (17, 5) := Stand, (17, 6) := Stand,
    (17, 7) := Stand, (17, 8) := Stand, (17, 9) := Stand, (17, 10) := Stand, (17, 11) := Stand,
    (16, 2) := Stand, (16, 3) := Stand, (16, 4) := Stand, (16, 5) := Stand, (16, 6) := Stand,
    (16, 7) := Hit, (16, 8) := Hit, (16, 9) := Hit, (16, 10) := Hit, (16, 11) := Hit,
    (12, 2) := Hit, (12, 3) := Hit, (12, 4) := Stand, (12, 5) := Stand, (12, 6) := Stand,
    (12, 7) := Hit, (12, 8) := Hit, (12, 9) := Hit, (12, 10) := Hit, (12, 11) := Hit,
    (11, 2) := Hit, (11, 3) := Hit, (11, 4) := Hit, (11, 5) := Hit, (11, 6) := Hit,
    (11, 7) := Hit, (11, 8) := Hit, (11, 9) := Hit, (11, 10) := Hit, (11, 11) := Hit
  ]

  /** The soft row for a hand counting an ace as 11: the other points, clamped to 6..8. */
  function SoftRow(score: int): int
  {
    if score - 11 <= 6 then 6 else if score - 11 >= 8 then 8 else score - 11
  }

  /** The hard row: 17 from 17 up, 11 up to 11, 16 for 13..16, and the score itself otherwise. */
  function HardRow(score: int): int
  {
    if score >= 17 then 17 else if score <= 11 then 11 else if 16 >= score >= 13 then 16 else score
  }

  /** A dictionary lookup, failing with `KeyError` on a missing key. */
  function Lookup(table: map<(int, int), Move>, row: int, up: int): (r: Fallible<Move>)
    ensures r.Ok? <==> (row, up) in table
  {
    if (row, up) in table then Ok(table[(row, up)]) else Fail(KeyMissing)
  }

  /** The two ways of playing: the basic strategy tables, or standing from a threshold on. */
  datatype Strategy = Basic | Threshold(threshold: int)

  /** The player's move for a (demoted, at most 21) hand against the croupier's shown card `up`. */
  function Decide(s: Strategy, hand: seq<int>, up: int): Fallible<Move>
  {
    match s
    case Threshold(t) => Ok(if Sum(hand) >= t then Stand else Hit)
    case Basic =>
      if 11 in hand then Lookup(SoftTable, SoftRow(Sum(hand)), up)
      else Lookup(HardTable, HardRow(Sum(hand)), up)
  }

  /** The soft table has a move for rows 6, 7 and 8 against every card 2..11, and nothing else. */
  lemma SoftKeys(row: int, up: int)
    ensures (row, up) in SoftTable <==> 6 <= row <= 8 && 2 <= up <= 11
  {
  }

  /** Soft rows: stand on 8 (19 and up), on 7 (18) against 2..8, hit otherwise. */
  lemma SoftMoves(row: int, up: int)
    requires (row, up) in SoftTable
    ensures SoftTable[(row, up)] == (if row == 8 || (row == 7 && up <= 8) then Stand else Hit)
  {
  }

  /** The hard table has a move for rows 11, 12, 16 and 17 against every card 2..11, and nothing else. */
  lemma HardKeys(row: int, up: int)
    ensures (row, up) in HardTable <==> (row == 11 || row == 12 || row == 16 || row == 17) && 2 <= up <= 11
  {
  }

  /** Hard rows: stand on 17, on 16 against 2..6, on 12 against 4..6, hit otherwise. */
  lemma HardMoves(row: int, up: int)
    requires (row, up) in HardTable
    ensures HardTable[(row, up)] == (if row == 17 || (row == 16 && up <= 6) || (row == 12 && 4 <= up <= 6) then Stand else Hit)
  {
  }

  /**
   The basic strategy answers for every hand when the croupier shows a card
   of the deck: with an ace counted as 11 it stands from 19, and on 18 against
   2..8; without one it stands from 17, on 13..16 against 2..6 and on 12
   against 4..6. Any other shown card is a missing key.
   */
  lemma BasicMoves(hand: seq<int>, up: int)
    ensures Decide(Basic, hand, up).Ok? <==> 2 <= up <= 11
    ensures 2 <= up <= 11 && 11 in hand ==>
      (Decide(Basic, hand, up).value == Stand <==> Sum(hand) >= 19 || (Sum(hand) == 18 && up <= 8))
    ensures 2 <= up <= 11 && 11 !in hand ==>
      (Decide(Basic, hand, up).value == Stand <==>
        Sum(hand) >= 17 || (13 <= Sum(hand) <= 16 && up <= 6) || (Sum(hand) == 12 && 4 <= up <= 6))
    ensures Decide(Basic, hand, up).Fail? ==> Decide(Basic, hand, up).error == KeyMissing
  {
    if 11 in hand {
      SoftKeys(SoftRow(Sum(hand)), up);
      if 2 <= up <= 11 {
        SoftMoves(SoftRow(Sum(hand)), up);
      }
    } else {
      HardKeys(HardRow(Sum(hand)), up);
      if 2 <= up <= 11 {
        HardMoves(HardRow(Sum(hand)), up);
      }
    }
  }

  /** How the player's turn ends: over 21 (a loss), or standing on a score with the table left. */
  datatype Turn = Bust | Stood(score: int, table: Table)

  /**
   The player's loop: demote an ace if over 21, lose if still over 21,
   otherwise stand or draw as the strategy says.
   */
  function PlayerTurn(s: Strategy, hand: seq<int>, up: int, t: Table, picks: seq<int>): Fallible<Turn>
    decreases |t.deck|
  {
    var h := Demote(hand);
    if Sum(h) > 21 then Ok(Bust)
    else
      match Decide(s, h, up)
      case Fail(e) => Fail(e)
      case Ok(m) =>
        if m == Stand then Ok(Stood(Sum(h), t))
        else
          match Draw(t, picks)
          case Fail(e) => Fail(e)
          case Ok(p) => PlayerTurn(s, h + [p.card], up, p.table, picks)
  }

  /**
   The croupier's loop: draw until the score is 17 or more. The croupier
   never demotes an ace. (Its first stop, a score over 21 against a player at
   most 21, is a score of 17 or more as well.)
   */
  function CroupierTurn(hand: seq<int>, t: Table, picks: seq<int>): Fallible<seq<int>>
    decreases |t.deck|
  {
    if Sum(hand) >= 17 then Ok(hand)
    else
      match Draw(t, picks)
      case Fail(e) => Fail(e)
      case Ok(p) => CroupierTurn(hand + [p.card], p.table, picks)
  }

  /** Who wins once the croupier stops: a croupier over 21 loses to a player at most 21; otherwise the player needs more points. */
  function Settle(player: int, croupier: int): bool
  {
    if croupier > 21 && player <= 21 then true else player > croupier
  }

  /** Two cards for the player and two for the croupier, dealt alternately from a fresh deck. */
  datatype Opening = Opening(player: seq<int>, croupier: seq<int>, table: Table)

  function Deal(t: Table, picks: seq<int>): Fallible<Opening>
  {
    match Draw(t, picks)
    case Fail(e) => Fail(e)
    case Ok(p1) =>
      match Draw(p1.table, picks)
      case Fail(e) => Fail(e)
      case Ok(c1) =>
        match Draw(c1.table, picks)
        case Fail(e) => Fail(e)
        case Ok(p2) =>
          match Draw(p2.table, picks)
          case Fail(e) => Fail(e)
          case Ok(c2) => Ok(Opening([p1.card, p2.card], [c1.card, c2.card], c2.table))
  }

  /** The player's turn after the deal, against the croupier's first card. */
  function Opened(s: Strategy, t: Table, picks: seq<int>): (r: Fallible<Turn>)
    ensures r.Ok? ==> Deal(t, picks).Ok?
  {
    match Deal(t, picks)
    case Fail(e) => Fail(e)
    case Ok(o) => PlayerTurn(s, o.player, o.croupier[0], o.table, picks)
  }

  /** A game dealt from table `t`, true when the player wins. */
  function Game(s: Strategy, t: Table, picks: seq<int>): Fallible<bool>
  {
    match Deal(t, picks)
    case Fail(e) => Fail(e)
    case Ok(o) =>
      match Opened(s, t, picks)
      case Fail(e) => Fail(e)
      case Ok(turn) =>
        if turn.Bust? then Ok(false)
        else
          match CroupierTurn(o.croupier, turn.table, picks)
          case Fail(e) => Fail(e)
          case Ok(c) => Ok(Settle(turn.score, Sum(c)))
  }

  /** One game: `basic_strategy()` or `threshold_value_strategy(t)` from a fresh deck, true when the player wins. */
  function Play(s: Strategy, picks: seq<int>): Fallible<bool>
  {
    Game(s, Table(Deck(), 0), picks)
  }

  /**
   A player who stands has at most 21 points; at a threshold, at least the
   threshold (so a threshold above 21 never stands); with the basic strategy,
   at least 12.
   */
  lemma {:induction false} PlayerShape(s: Strategy, hand: seq<int>, up: int, t: Table, picks: seq<int>)
    ensures PlayerTurn(s, hand, up, t, picks).Ok? && PlayerTurn(s, hand, up, t, picks).value.Stood? ==>
      PlayerTurn(s, hand, up, t, picks).value.score <= 21 &&
      (s.Threshold? ==> PlayerTurn(s, hand, up, t, picks).value.score >= s.threshold) &&
      (s.Basic? ==> PlayerTurn(s, hand, up, t, picks).value.score >= 12)
    decreases |t.deck|
  {
    var h := Demote(hand);
    if Sum(h) <= 21 && Decide(s, h, up).Ok? {
      if s.Basic? {
        BasicMoves(h, up);
      }
      if Decide(s, h, up).value == Hit && Draw(t, picks).Ok? {
        var p := Draw(t, picks).value;
        PlayerShape(s, h + [p.card], up, p.table, picks);
      }
    }
  }

  /**
   The croupier keeps the dealt cards and only adds to them, never demoting
   an ace; it stops on 17 or more, and every hand it drew to was below 17.
   */
  lemma CroupierShape(hand: seq<int>, t: Table, picks: seq<int>)
    ensures CroupierTurn(hand, t, picks).Ok? ==>
      |CroupierTurn(hand, t, picks).value| >= |hand| &&
      CroupierTurn(hand, t, picks).value[..|hand|] == hand &&
      Sum(CroupierTurn(hand, t, picks).value) >= 17 &&
      forall k :: |hand| <= k < |CroupierTurn(hand, t, picks).value| ==> Sum(CroupierTurn(hand, t, picks).value[..k]) < 17
  {
    CroupierKeeps(hand, t, picks);
    CroupierStops(hand, t, picks);
    CroupierBelow(hand, t, picks);
  }

  lemma {:induction false} CroupierKeeps(hand: seq<int>, t: Table, picks: seq<int>)
    ensures CroupierTurn(hand, t, picks).Ok? ==>
      |CroupierTurn(hand, t, picks).value| >= |hand| && CroupierTurn(hand, t, picks).value[..|hand|] == hand
    decreases |t.deck|
  {
    if Sum(hand) < 17 && Draw(t, picks).Ok? {
      var p := Draw(t, picks).value;
      var next := hand + [p.card];
      CroupierKeeps(next, p.table, picks);
      var r := CroupierTurn(next, p.table, picks);
      if r.Ok? {
        assert r.value[..|hand|] == r.value[..|next|][..|hand|];
        assert next[..|hand|] == hand;
      }
    }
  }

  lemma {:induction false} CroupierStops(hand: seq<int>, t: Table, picks: seq<int>)
    ensures CroupierTurn(hand, t, picks).Ok? ==> Sum(CroupierTurn(hand, t, picks).value) >= 17
    decreases |t.deck|
  {
    if Sum(hand) < 17 && Draw(t, picks).Ok? {
      var p := Draw(t, picks).value;
      CroupierStops(hand + [p.card], p.table, picks);
    }
  }

  lemma {:induction false} CroupierBelow(hand: seq<int>, t: Table, picks: seq<int>)
    ensures CroupierTurn(hand, t, picks).Ok? ==>
      forall k :: |hand| <= k < |CroupierTurn(hand, t, picks).value| ==> Sum(CroupierTurn(hand, t, picks).value[..k]) < 17
    decreases |t.deck|
  {
    if Sum(hand) < 17 && Draw(t, picks).Ok? {
      var p := Draw(t, picks).value;
      var next := hand + [p.card];
      CroupierBelow(next, p.table, picks);
      CroupierKeeps(hand, t, picks);
    }
  }

  /**
   The game's verdict: the player loses on going over 21 whatever the
   croupier holds; a player who stands wins exactly when the croupier ends
   over 21 or with fewer points, so ties lose.
   */
  lemma GameVerdict(s: Strategy, t: Table, picks: seq<int>)
    ensures Game(s, t, picks).Ok? ==> (Deal(t, picks).Ok? && Opened(s, t, picks).Ok?)
    ensures (Game(s, t, picks).Ok? && Opened(s, t, picks).value.Bust?) ==> Game(s, t, picks) == Ok(false)
    ensures (Game(s, t, picks).Ok? && Opened(s, t, picks).value.Stood?) ==>
      (CroupierTurn(Deal(t, picks).value.croupier, Opened(s, t, picks).value.table, picks).Ok? &&
       (Game(s, t, picks) == Ok(true) <==>
         Sum(CroupierTurn(Deal(t, picks).value.croupier, Opened(s, t, picks).value.table, picks).value) > 21 ||
         Opened(s, t, picks).value.score > Sum(CroupierTurn(Deal(t, picks).value.croupier, Opened(s, t, picks).value.table, picks).value)))
  {
    if Deal(t, picks).Ok? {
      var o := Deal(t, picks).value;
      PlayerShape(s, o.player, o.croupier[0], o.table, picks);
    }
  }

  /** A croupier dealt two aces has 22 and stops at once: a player who stood wins. */
  lemma AcesLose(s: Strategy, t: Table, picks: seq<int>)
    requires Deal(t, picks).Ok? && Deal(t, picks).value.croupier == [11, 11]
    requires Opened(s, t, picks).Ok? && Opened(s, t, picks).value.Stood?
    ensures Game(s, t, picks) == Ok(true)
  {
    var o := Deal(t, picks).value;
    PlayerShape(s, o.player, 11, o.table, picks);
    assert Sum([11, 11]) == 22;
  }

  /** The deck holds the 52 cards less those drawn, each worth 2 to 11. */
  ghost predicate Fresh(t: Table)
  {
    |t.deck| + t.used == 52 && forall c :: c in t.deck ==> 2 <= c <= 11
  }

  /** Every card of the hand is worth 1 to 11. */
  ghost predicate Values(hand: seq<int>)
  {
    forall c :: c in hand ==> 1 <= c <= 11
  }

  /** A draw keeps the deck fresh; with legal indices, a draw from a non-empty deck fails only for lack of indices. */
  lemma DrawLegal(t: Table, picks: seq<int>)
    requires Fresh(t)
    ensures BlackjackBust.LegalPicks(picks) && |t.deck| > 0 && Draw(t, picks).Fail? ==> Draw(t, picks).error == DrawsExhausted && |picks| < 52
    ensures Draw(t, picks).Ok? ==> Fresh(Draw(t, picks).value.table) && 2 <= Draw(t, picks).value.card <= 11
  {
    if Draw(t, picks).Ok? {
      var i := picks[t.used];
      var r := RemoveAt(t.deck, i);
      assert Draw(t, picks).value == Pop(t.deck[i], Table(r, t.used + 1));
      assert r == r[..i] + r[i..];
      assert t.deck == r[..i] + [t.deck[i]] + r[i..];
      assert t.deck[i] in t.deck;
      forall c | c in r
        ensures c in t.deck
      {
      }
    }
  }

  /** A hand of cards worth at least 1 has at most as many cards as points. */
  lemma {:induction false} HandSize(hand: seq<int>)
    requires Values(hand)
    ensures |hand| <= Sum(hand)
  {
    if |hand| > 0 {
      var init := hand[..|hand| - 1];
      assert hand == init + [hand[|hand| - 1]];
      assert forall c :: c in init ==> c in hand;
      assert hand[|hand| - 1] in hand;
      HandSize(init);
    }
  }

  lemma DemoteValues(hand: seq<int>)
    requires Values(hand)
    ensures Values(Demote(hand)) && |Demote(hand)| == |hand|
  {
    if 11 in hand && Sum(hand) > 21 {
      var i := IndexOf(hand, 11);
      var r := RemoveAt(hand, i);
      assert r == r[..i] + r[i..];
      assert hand == r[..i] + [hand[i]] + r[i..];
      forall c | c in r
        ensures c in hand
      {
      }
    }
  }

  /**
   With legal indices the player's turn fails only for lack of indices: at
   most 21 points means at most 21 cards, so the deck never runs dry, and the
   basic strategy always finds its key for a shown card of the deck.
   */
  lemma {:induction false} PlayerTotal(s: Strategy, hand: seq<int>, up: int, t: Table, picks: seq<int>)
    requires Fresh(t) && Values(hand) && t.used == |hand| + 2 && BlackjackBust.LegalPicks(picks)
    requires s.Basic? ==> 2 <= up <= 11
    ensures PlayerTurn(s, hand, up, t, picks).Fail? ==> PlayerTurn(s, hand, up, t, picks).error == DrawsExhausted && |picks| < 52
    ensures PlayerTurn(s, hand, up, t, picks).Ok? && PlayerTurn(s, hand, up, t, picks).value.Stood? ==>
      Fresh(PlayerTurn(s, hand, up, t, picks).value.table) && PlayerTurn(s, hand, up, t, picks).value.table.used <= 23
    decreases |t.deck|
  {
    var h := Demote(hand);
    DemoteValues(hand);
    if Sum(h) <= 21 {
      HandSize(h);
      if s.Basic? {
        BasicMoves(h, up);
      }
      if Decide(s, h, up).value == Hit {
        DrawLegal(t, picks);
        if Draw(t, picks).Ok? {
          var p := Draw(t, picks).value;
          PlayerTotal(s, h + [p.card], up, p.table, picks);
        }
      }
    }
  }

  /** With legal indices the croupier's turn fails only for lack of indices: below 17 points it holds at most 16 cards. */
  lemma {:induction false} CroupierTotal(hand: seq<int>, t: Table, picks: seq<int>)
    requires Fresh(t) && Values(hand) && t.used <= 21 + |hand| && BlackjackBust.LegalPicks(picks)
    ensures CroupierTurn(hand, t, picks).Fail? ==> CroupierTurn(hand, t, picks).error == DrawsExhausted && |picks| < 52
    decreases |t.deck|
  {
    if Sum(hand) < 17 {
      HandSize(hand);
      DrawLegal(t, picks);
      if Draw(t, picks).Ok? {
        var p := Draw(t, picks).value;
        CroupierTotal(hand + [p.card], p.table, picks);
      }
    }
  }

  /** A fresh deck: 52 cards worth 2 to 11. */
  lemma DeckFresh()
    ensures Fresh(Table(Deck(), 0))
  {
    DeckComposition();
  }

  /** The deal takes four cards of the deck, alternately to the player and the croupier: 48 cards remain and nothing is lost. */
  lemma DealCards(t: Table, picks: seq<int>)
    ensures Deal(t, picks).Ok? ==>
      |Deal(t, picks).value.player| == 2 && |Deal(t, picks).value.croupier| == 2 && Deal(t, picks).value.table.used == t.used + 4 &&
      multiset(Deal(t, picks).value.player) + multiset(Deal(t, picks).value.croupier) + multiset(Deal(t, picks).value.table.deck) == multiset(t.deck)
  {
    if Deal(t, picks).Ok? {
      var p1 := Draw(t, picks).value;
      var c1 := Draw(p1.table, picks).value;
      var p2 := Draw(c1.table, picks).value;
      var c2 := Draw(p2.table, picks).value;
      assert Deal(t, picks).value == Opening([p1.card, p2.card], [c1.card, c2.card], c2.table);
      assert multiset([p1.card, p2.card]) == multiset{p1.card} + multiset{p2.card};
      assert multiset([c1.card, c2.card]) == multiset{c1.card} + multiset{c2.card};
    }
  }

  /** After the deal the deck is still fresh and every dealt card, the shown one included, is a card of the deck. */
  lemma DealFresh(t: Table, picks: seq<int>)
    requires Fresh(t)
    ensures Deal(t, picks).Ok? ==>
      Fresh(Deal(t, picks).value.table) && Values(Deal(t, picks).value.player) && Values(Deal(t, picks).value.croupier) &&
      2 <= Deal(t, picks).value.croupier[0] <= 11
  {
    if Deal(t, picks).Ok? {
      var p1 := Draw(t, picks).value;
      var c1 := Draw(p1.table, picks).value;
      var p2 := Draw(c1.table, picks).value;
      var c2 := Draw(p2.table, picks).value;
      assert Deal(t, picks).value == Opening([p1.card, p2.card], [c1.card, c2.card], c2.table);
      DrawLegal(t, picks);
      DrawLegal(p1.table, picks);
      DrawLegal(c1.table, picks);
      DrawLegal(p2.table, picks);
    }
  }

  /** With legal indices the deal from a full deck fails only for lack of indices. */
  lemma DealTotal(t: Table, picks: seq<int>)
    requires Fresh(t) && t.used == 0 && BlackjackBust.LegalPicks(picks)
    ensures Deal(t, picks).Fail? ==> Deal(t, picks).error == DrawsExhausted && |picks| < 52
  {
    DrawLegal(t, picks);
    if Draw(t, picks).Ok? {
      var p1 := Draw(t, picks).value;
      DrawLegal(p1.table, picks);
      if Draw(p1.table, picks).Ok? {
        var c1 := Draw(p1.table, picks).value;
        DrawLegal(c1.table, picks);
        if Draw(c1.table, picks).Ok? {
          var p2 := Draw(c1.table, picks).value;
          DrawLegal(p2.table, picks);
        }
      }
    }
  }

  /**
   With legal indices a game of either strategy fails only for lack of
   indices: no `KeyError`, and the deck never runs out. A game never draws
   more than the 52 cards, so 52 indices always finish it.
   */
  lemma GameTotal(s: Strategy, t: Table, picks: seq<int>)
    requires Fresh(t) && t.used == 0 && BlackjackBust.LegalPicks(picks)
    ensures Game(s, t, picks).Fail? ==> Game(s, t, picks).error == DrawsExhausted && |picks| < 52
  {
    DealCards(t, picks);
    DealFresh(t, picks);
    DealTotal(t, picks);
    if Deal(t, picks).Ok? {
      var o := Deal(t, picks).value;
      var turn := PlayerTurn(s, o.player, o.croupier[0], o.table, picks);
      assert Opened(s, t, picks) == turn;
      PlayerTotal(s, o.player, o.croupier[0], o.table, picks);
      if turn.Ok? && turn.value.Stood? {
        CroupierTotal(o.croupier, turn.value.table, picks);
      }
    }
  }

  lemma PlayTotal(s: Strategy, picks: seq<int>)
    requires BlackjackBust.LegalPicks(picks)
    ensures Play(s, picks).Fail? ==> Play(s, picks).error == DrawsExhausted && |picks| < 52
  {
    DeckFresh();
    GameTotal(s, Table(Deck(), 0), picks);
  }

  /**
   The player's `while not stand` loop: recompute the score, demote the first
   '11' when over 21, lose if still over 21, else look up the move and stand
   or draw.
   */
  method PlayerLoop(s: Strategy, hand: seq<int>, up: int, t: Table, picks: seq<int>) returns (r: Fallible<Turn>)
    ensures r == PlayerTurn(s, hand, up, t, picks)
  {
    var cards := hand;
    var table := t;
    while true
      invariant PlayerTurn(s, cards, up, table, picks) == PlayerTurn(s, hand, up, t, picks)
      decreases |table.deck|
    {
      var score := Sum(cards);
      if 11 in cards && score > 21 {
        cards := RemoveAt(cards, IndexOf(cards, 11)) + [1];
        score := Sum(cards);
      }
      if score > 21 {
        return Ok(Bust);
      }
      var move := Decide(s, cards, up);
      if move.Fail? {
        return Fail(move.error);
      }
      if move.value == Stand {
        return Ok(Stood(score, table));
      }
      var p := Draw(table, picks);
      if p.Fail? {
        return Fail(p.error);
      }
      cards := cards + [p.value.card];
      table := p.value.table;
    }
  }

  /**
   The croupier's `while True` loop: a croupier over 21 against a player at
   most 21 loses at once; otherwise it stops on 17 and the player needs more
   points. Its verdict is `Settle` on the hand `CroupierTurn` ends with.
   */
  method CroupierLoop(player: int, hand: seq<int>, t: Table, picks: seq<int>) returns (r: Fallible<bool>)
    ensures CroupierTurn(hand, t, picks).Fail? ==> r == Fail(CroupierTurn(hand, t, picks).error)
    ensures CroupierTurn(hand, t, picks).Ok? ==> r == Ok(Settle(player, Sum(CroupierTurn(hand, t, picks).value)))
  {
    var cards := hand;
    var table := t;
    var score := Sum(cards);
    while true
      invariant score == Sum(cards)
      invariant CroupierTurn(cards, table, picks) == CroupierTurn(hand, t, picks)
      decreases |table.deck|
    {
      score := Sum(cards);
      if score > 21 && player <= 21 {
        return Ok(true);
      }
      if score >= 17 {
        break;
      }
      var p := Draw(table, picks);
      if p.Fail? {
        return Fail(p.error);
      }
      cards := cards + [p.value.card];
      table := p.value.table;
      score := Sum(cards);
    }
    return Ok(player > score);
  }

  /** `basic_strategy()` for `Basic`, `threshold_value_strategy(t)` for `Threshold(t)`. */
  method StrategyGame(s: Strategy, picks: seq<int>) returns (r: Fallible<bool>)
    ensures r == Play(s, picks)
  {
    var t := Table(Deck(), 0);
    var p1 := Draw(t, picks);
    if p1.Fail? {
      return Fail(p1.error);
    }
    var c1 := Draw(p1.value.table, picks);
    if c1.Fail? {
      return Fail(c1.error);
    }
    var p2 := Draw(c1.value.table, picks);
    if p2.Fail? {
      return Fail(p2.error);
    }
    var c2 := Draw(p2.value.table, picks);
    if c2.Fail? {
      return Fail(c2.error);
    }
    var turn := PlayerLoop(s, [p1.value.card, p2.value.card], c1.value.card, c2.value.table, picks);
    if turn.Fail? {
      return Fail(turn.error);
    }
    if turn.value.Bust? {
      return Ok(false);
    }
    r := CroupierLoop(turn.value.score, [c1.value.card, c2.value.card], turn.value.table, picks);
  }
}
