/**
 * The memory-match game: a shuffled deck of 16 cards holding 8 emoji pairs,
 * card clicks, the delayed pair resolution, the move counter and the
 * completion flag.
 */
module Memory {
  import opened Wrappers

  const Emojis: seq<string> := ["\U{1F31F}", "\U{1F496}", "\U{1F308}", "\U{1F98B}", "\U{1F338}", "\U{2600}\U{FE0F}", "\U{1F340}", "\U{1F388}"]

  const DeckSize: nat := 16

  datatype Card = Card(id: nat, emoji: string, flipped: bool, matched: bool)

  /**
   * A pending pair resolution: the 1000 ms timer scheduled when the second
   * card was turned, carrying the two ids and whether their emojis agreed.
   */
  datatype Resolution = Resolution(first: nat, second: nat, same: bool)

  /**
   * Game state. `pending` is the list of turned card ids awaiting resolution;
   * `timers` the scheduled resolutions that have not fired yet, oldest first.
   */
  datatype Game = Game(cards: seq<Card>, pending: seq<nat>, moves: nat, complete: bool, canFlip: bool, timers: seq<Resolution>)

  // ---------------------------------------------------------------------------
  // Dealing

  /** The random sort yields some permutation of the 16 positions of `[...emojis, ...emojis]`. */
  predicate IsShuffle(perm: seq<nat>) {
    && |perm| == DeckSize
    && (forall i :: 0 <= i < |perm| ==> perm[i] < DeckSize)
    && (forall i, j :: 0 <= i < j < |perm| ==> perm[i] != perm[j])
    && (forall v :: 0 <= v < DeckSize ==> v in perm)
  }

  /** Entry `v` of `[...emojis, ...emojis]`. */
  function Doubled(v: nat): string
    requires v < DeckSize
  {
    if v < |Emojis| then Emojis[v] else Emojis[v - |Emojis|]
  }

  /** The cards dealt from a shuffle: position `i` gets id `i`, face down, unmatched. */
  function Deal(perm: seq<nat>): (cards: seq<Card>)
    requires IsShuffle(perm)
    ensures |cards| == DeckSize
    ensures forall i :: 0 <= i < |cards| ==> cards[i] == Card(i, Doubled(perm[i]), false, false)
  {
    seq(DeckSize, i requires 0 <= i < DeckSize => Card(i, Doubled(perm[i]), false, false))
  }

  /** `initializeGame` with the pending-resolution timers cancelled. */
  function Initialize(perm: seq<nat>): (g: Game)
    requires IsShuffle(perm)
    ensures |g.cards| == DeckSize
    ensures forall i :: 0 <= i < |g.cards| ==> g.cards[i].id == i && !g.cards[i].flipped && !g.cards[i].matched
    ensures forall e :: e in Emojis ==> CountEmoji(g.cards, e) == 2
    ensures forall i :: 0 <= i < |g.cards| ==> g.cards[i].emoji in Emojis
    ensures g.pending == [] && g.moves == 0 && !g.complete && g.canFlip && g.timers == []
  {
    var cards := Deal(perm);
    DealHasPairs(perm);
    Game(cards, [], 0, false, true, [])
  }

  /**
   * `initializeGame` as written: it resets every piece of state but the
   * pair-resolution effect returns no cleanup, so a timer scheduled before the
   * reset still fires afterwards, on the new deck.
   */
  function InitializeAsWritten(g: Game, perm: seq<nat>): (g': Game)
    requires IsShuffle(perm)
    ensures g' == Initialize(perm).(timers := g.timers)
  {
    Game(Deal(perm), [], 0, false, true, g.timers)
  }

  // ---------------------------------------------------------------------------
  // Card lookup and updates

  /** No card before position `i` has id `id`. */
  ghost predicate NoIdBefore(cards: seq<Card>, i: nat, id: nat)
    requires i <= |cards|
  {
    forall j :: 0 <= j < i ==> cards[j].id != id
  }

  /** `cards.find(card => card.id === id)`. */
  function FindCard(cards: seq<Card>, id: nat): (r: Option<Card>)
    ensures r.Some? ==> r.value in cards && r.value.id == id
    ensures r.None? ==> forall i :: 0 <= i < |cards| ==> cards[i].id != id
  {
    if |cards| == 0 then None
    else if cards[0].id == id then Some(cards[0])
    else FindCard(cards[1..], id)
  }

  /** `find` returns the first card with the id: every card before it has another id. */
  lemma {:induction false} FindCardIsFirst(cards: seq<Card>, id: nat)
    ensures FindCard(cards, id).Some? ==>
      exists i :: 0 <= i < |cards| && cards[i] == FindCard(cards, id).value && NoIdBefore(cards, i, id)
  {
    if |cards| > 0 {
      if cards[0].id == id {
        assert NoIdBefore(cards, 0, id);
      } else if FindCard(cards, id).Some? {
        FindCardIsFirst(cards[1..], id);
        var i :| 0 <= i < |cards[1..]| && cards[1..][i] == FindCard(cards, id).value && NoIdBefore(cards[1..], i, id);
        assert cards[i + 1] == FindCard(cards, id).value && NoIdBefore(cards, i + 1, id);
      }
    }
  }

  /** The deck with every card whose id is `a` or `b` rewritten by `f`. */
  function Update(cards: seq<Card>, a: nat, b: nat, f: Card -> Card): (r: seq<Card>)
    ensures |r| == |cards|
    ensures forall i :: 0 <= i < |cards| ==> r[i] == (if cards[i].id == a || cards[i].id == b then f(cards[i]) else cards[i])
  {
    seq(|cards|, i requires 0 <= i < |cards| => if cards[i].id == a || cards[i].id == b then f(cards[i]) else cards[i])
  }

  function TurnUp(c: Card): Card { c.(flipped := true) }
  function TurnDown(c: Card): Card { c.(flipped := false) }
  function MarkMatched(c: Card): Card { c.(matched := true) }

  predicate AllMatched(cards: seq<Card>) {
    |cards| > 0 && forall i :: 0 <= i < |cards| ==> cards[i].matched
  }

  // ---------------------------------------------------------------------------
  // Events

  /** The completion effect: raise the flag once a non-empty deck is all matched. */
  function CheckComplete(g: Game): (g': Game)
    ensures g'.complete == (g.complete || AllMatched(g.cards))
    ensures g' == g.(complete := g'.complete)
  {
    if AllMatched(g.cards) && !g.complete then g.(complete := true) else g
  }

  /**
   * The pair effect: once two cards are turned, flipping is disabled, the
   * move counter goes up and a resolution comparing the two emojis is scheduled.
   */
  function PairEffect(g: Game): (g': Game)
    ensures |g.pending| != 2 ==> g' == g
    ensures |g.pending| == 2 ==>
      g' == g.(canFlip := false, moves := g.moves + 1, timers := g.timers + [ResolutionFor(g)])
  {
    if |g.pending| == 2 then
      g.(canFlip := false, moves := g.moves + 1, timers := g.timers + [ResolutionFor(g)])
    else g
  }

  /**
   * The comparison the pair effect makes: both cards found and their emojis
   * equal. In a deck where card `i` has id `i`, that compares the emojis of
   * the two pending positions.
   */
  function ResolutionFor(g: Game): (r: Resolution)
    requires |g.pending| == 2
    ensures r.first == g.pending[0] && r.second == g.pending[1]
    ensures (forall i :: 0 <= i < |g.cards| ==> g.cards[i].id == i) && g.pending[0] < |g.cards| && g.pending[1] < |g.cards| ==>
      (r.same <==> g.cards[g.pending[0]].emoji == g.cards[g.pending[1]].emoji)
  {
    var a := FindCard(g.cards, g.pending[0]);
    var b := FindCard(g.cards, g.pending[1]);
    var same := a.Some? && b.Some? && a.value.emoji == b.value.emoji;
    assert (forall i :: 0 <= i < |g.cards| ==> g.cards[i].id == i) && g.pending[0] < |g.cards| && g.pending[1] < |g.cards| ==>
      (same <==> g.cards[g.pending[0]].emoji == g.cards[g.pending[1]].emoji) by {
      if (forall i :: 0 <= i < |g.cards| ==> g.cards[i].id == i) && g.pending[0] < |g.cards| && g.pending[1] < |g.cards| {
        FindFirst(g.cards, g.pending[0]);
        FindFirst(g.cards, g.pending[1]);
      }
    }
    Resolution(g.pending[0], g.pending[1], same)
  }

  /**
   * `handleCardClick` followed by the pair effect. A click is ignored while
   * flipping is disabled, on a card already pending, or on a card that is
   * already face up or matched; otherwise that card is turned up and its id
   * appended to the pending list.
   */
  function Click(g: Game, id: nat): (g': Game)
    ensures !g.canFlip || id in g.pending ==> g' == g
    ensures (var c := FindCard(g.cards, id); c.Some? && (c.value.matched || c.value.flipped)) ==> g' == g
  {
    if !g.canFlip || id in g.pending then g
    else
      var c := FindCard(g.cards, id);
      if c.Some? && (c.value.matched || c.value.flipped) then g
      else PairEffect(g.(cards := Update(g.cards, id, id, TurnUp), pending := g.pending + [id]))
  }

  /**
   * The oldest resolution timer fires: both cards are marked matched if their
   * emojis agreed, otherwise turned back down; the pending list is cleared,
   * flipping re-enabled, and the completion effect runs.
   */
  function Resolve(g: Game): (g': Game)
    requires |g.timers| > 0
    ensures g'.pending == [] && g'.canFlip && g'.timers == g.timers[1..] && g'.moves == g.moves
    ensures |g'.cards| == |g.cards|
    ensures var r := g.timers[0]; forall i :: 0 <= i < |g.cards| ==>
      g'.cards[i] == (if g.cards[i].id == r.first || g.cards[i].id == r.second then
                        (if r.same then g.cards[i].(matched := true) else g.cards[i].(flipped := false))
                      else g.cards[i])
    ensures g'.complete == (g.complete || AllMatched(g'.cards))
  {
    var r := g.timers[0];
    var cards := if r.same then Update(g.cards, r.first, r.second, MarkMatched)
                 else Update(g.cards, r.first, r.second, TurnDown);
    CheckComplete(g.(cards := cards, pending := [], canFlip := true, timers := g.timers[1..]))
  }

  // ---------------------------------------------------------------------------
  // Pairs in the deck

  function CountEmoji(cards: seq<Card>, e: string): nat {
    if |cards| == 0 then 0
    else CountEmoji(cards[..|cards| - 1], e) + (if cards[|cards| - 1].emoji == e then 1 else 0)
  }

  lemma EmojisDistinct()
    ensures forall i, j :: 0 <= i < |Emojis| && 0 <= j < |Emojis| && Emojis[i] == Emojis[j] ==> i == j
  {
  }

  /** Every entry of the doubled list is one of the emojis, at a position congruent mod 8. */
  lemma DoubledIndex(v: nat, k: nat)
    requires v < DeckSize && k < |Emojis|
    ensures Doubled(v) in Emojis
    ensures Doubled(v) == Emojis[k] <==> v == k || v == k + |Emojis|
  {
    EmojisDistinct();
  }

  /** Counting the cards with emoji `e` among those whose index is in `[0, n)`. */
  lemma {:induction false} CountPositions(cards: seq<Card>, e: string, p: nat, q: nat)
    requires p < q < |cards|
    requires cards[p].emoji == e && cards[q].emoji == e
    requires forall i :: 0 <= i < |cards| && cards[i].emoji == e ==> i == p || i == q
    ensures CountEmoji(cards, e) == 2
    decreases |cards|
  {
    CountUpTo(cards, e, p, q, |cards|);
    assert cards[..|cards|] == cards;
  }

  lemma {:induction false} CountUpTo(cards: seq<Card>, e: string, p: nat, q: nat, n: nat)
    requires p < q < |cards| && n <= |cards|
    requires cards[p].emoji == e && cards[q].emoji == e
    requires forall i :: 0 <= i < |cards| && cards[i].emoji == e ==> i == p || i == q
    ensures CountEmoji(cards[..n], e) == (if n > q then 2 else if n > p then 1 else 0)
    decreases n
  {
    if n > 0 {
      CountUpTo(cards, e, p, q, n - 1);
      assert cards[..n][..n - 1] == cards[..n - 1];
    }
    assert cards[..|cards|] == cards;
  }

  /** A shuffled deal holds each emoji at exactly two positions. */
  lemma DealHasPairs(perm: seq<nat>)
    requires IsShuffle(perm)
    ensures forall e :: e in Emojis ==> CountEmoji(Deal(perm), e) == 2
    ensures forall i :: 0 <= i < DeckSize ==> Deal(perm)[i].emoji in Emojis
  {
    var cards := Deal(perm);
    forall i | 0 <= i < DeckSize
      ensures cards[i].emoji in Emojis
    {
      DoubledIndex(perm[i], 0);
    }
    forall e | e in Emojis
      ensures CountEmoji(cards, e) == 2
    {
      var k :| 0 <= k < |Emojis| && Emojis[k] == e;
      assert k in perm && k + |Emojis| in perm;
      var p :| 0 <= p < |perm| && perm[p] == k;
      var q :| 0 <= q < |perm| && perm[q] == k + |Emojis|;
      forall i | 0 <= i < DeckSize && cards[i].emoji == e
        ensures i == p || i == q
      {
        DoubledIndex(perm[i], k);
      }
      DoubledIndex(k, k);
      DoubledIndex(k + |Emojis|, k);
      if p < q {
        CountPositions(cards, e, p, q);
      } else {
        CountPositions(cards, e, q, p);
      }
    }
  }

  /** Cards `i`, `j`, `k` (if distinct positions) do not all carry one emoji. */
  ghost predicate NotThree(cards: seq<Card>, i: int, j: int, k: int) {
    && 0 <= i < |cards| && 0 <= j < |cards| && 0 <= k < |cards|
    && i != j && j != k && i != k && cards[i].emoji == cards[j].emoji
    ==> cards[j].emoji != cards[k].emoji
  }

  /** No emoji sits on three different cards. */
  ghost predicate AtMostTwo(cards: seq<Card>) {
    forall i, j, k :: NotThree(cards, i, j, k)
  }

  /** Cards `i` and `j`, if they carry one emoji, are both matched or both not. */
  ghost predicate PairAgrees(cards: seq<Card>, i: int, j: int) {
    0 <= i < |cards| && 0 <= j < |cards| && cards[i].emoji == cards[j].emoji ==> cards[i].matched == cards[j].matched
  }

  /** Cards with the same emoji are matched together or not at all. */
  ghost predicate MatchedInPairs(cards: seq<Card>) {
    forall i, j :: PairAgrees(cards, i, j)
  }

  lemma DealAtMostTwo(perm: seq<nat>)
    requires IsShuffle(perm)
    ensures AtMostTwo(Deal(perm))
  {
    var cards := Deal(perm);
    forall i, j, k
      ensures NotThree(cards, i, j, k)
    {
      if && 0 <= i < |cards| && 0 <= j < |cards| && 0 <= k < |cards| {
        DoubledIndex(perm[i], 0);
        var m :| 0 <= m < |Emojis| && Emojis[m] == cards[i].emoji;
        DoubledIndex(perm[i], m);
        DoubledIndex(perm[j], m);
        DoubledIndex(perm[k], m);
      }
    }
  }

  // ---------------------------------------------------------------------------
  // The invariant of a game played with reinitialisation cancelling its timer

  /** The deck itself: 16 cards with ids 0..15, no emoji on three of them. */
  ghost predicate WellDealt(cards: seq<Card>) {
    && |cards| == DeckSize
    && (forall i :: 0 <= i < |cards| ==> cards[i].id == i)
    && AtMostTwo(cards)
  }

  /** Two decks that differ at most in the face-up and matched flags. */
  predicate SameFaces(c1: seq<Card>, c2: seq<Card>) {
    |c1| == |c2| && forall i :: 0 <= i < |c1| ==> c1[i].id == c2[i].id && c1[i].emoji == c2[i].emoji
  }

  /** The pending list: at most two distinct cards, exactly the face-up unmatched ones. */
  ghost predicate PendingOk(g: Game)
    requires |g.cards| == DeckSize
  {
    && |g.pending| <= 2
    && (forall k :: 0 <= k < |g.pending| ==> g.pending[k] < DeckSize)
    && (|g.pending| == 2 ==> g.pending[0] != g.pending[1])
    && (forall i :: 0 <= i < |g.cards| ==> (g.cards[i].flipped && !g.cards[i].matched <==> i in g.pending))
  }

  /** Flipping is disabled exactly while one resolution for the pending pair is scheduled. */
  ghost predicate TimerOk(g: Game) {
    && (!g.canFlip <==> |g.pending| == 2)
    && (|g.pending| == 2 ==> g.timers == [ResolutionFor(g)])
    && (|g.pending| < 2 ==> g.timers == [])
  }

  /**
   * Reachable games: a well-dealt deck whose matched cards come in pairs, a
   * consistent pending list and timer, and a completion flag that is raised
   * exactly when every card is matched.
   */
  ghost predicate Valid(g: Game) {
    && WellDealt(g.cards)
    && MatchedInPairs(g.cards)
    && PendingOk(g)
    && TimerOk(g)
    && (g.complete <==> AllMatched(g.cards))
  }

  lemma SameFacesWellDealt(c1: seq<Card>, c2: seq<Card>)
    requires WellDealt(c1) && SameFaces(c1, c2)
    ensures WellDealt(c2)
  {
    forall i, j, k
      ensures NotThree(c2, i, j, k)
    {
      assert NotThree(c1, i, j, k);
    }
  }

  lemma FindInValid(g: Game, id: nat)
    requires |g.cards| == DeckSize && forall i :: 0 <= i < |g.cards| ==> g.cards[i].id == i
    ensures id < DeckSize ==> FindCard(g.cards, id) == Some(g.cards[id])
    ensures id >= DeckSize ==> FindCard(g.cards, id) == None
  {
    FindFirst(g.cards, id);
  }

  lemma {:induction false} FindFirst(cards: seq<Card>, id: nat)
    requires forall i :: 0 <= i < |cards| ==> cards[i].id == i + (if |cards| > 0 then cards[0].id else 0)
    ensures |cards| > 0 && cards[0].id <= id < cards[0].id + |cards| ==> FindCard(cards, id) == Some(cards[id - cards[0].id])
    ensures (|cards| == 0 || id < cards[0].id || id >= cards[0].id + |cards|) ==> FindCard(cards, id) == None
    decreases |cards|
  {
    if |cards| > 1 {
      FindFirst(cards[1..], id);
    }
  }

  lemma InitializeValid(perm: seq<nat>)
    requires IsShuffle(perm)
    ensures Valid(Initialize(perm))
  {
    DealAtMostTwo(perm);
    assert !Initialize(perm).cards[0].matched;
  }

  lemma ClickPreservesValid(g: Game, id: nat)
    requires Valid(g) && id < DeckSize
    ensures Valid(Click(g, id))
  {
    FindInValid(g, id);
    if g.canFlip && id !in g.pending && !g.cards[id].matched && !g.cards[id].flipped {
      var u := Update(g.cards, id, id, TurnUp);
      var h := g.(cards := u, pending := g.pending + [id]);
      assert SameFaces(g.cards, u);
      SameFacesWellDealt(g.cards, u);
      assert forall i :: 0 <= i < DeckSize ==> u[i].matched == g.cards[i].matched;
      forall i, j ensures PairAgrees(u, i, j) {
        assert PairAgrees(g.cards, i, j);
      }
      assert AllMatched(u) == AllMatched(g.cards);
      assert PendingOk(h);
      assert g.timers == [];
      var g' := PairEffect(h);
      assert g' == Click(g, id);
      if |h.pending| == 2 {
        assert ResolutionFor(g') == ResolutionFor(h);
      }
      assert TimerOk(g');
    }
  }

  lemma ResolveKeepsPairs(g: Game)
    requires WellDealt(g.cards) && MatchedInPairs(g.cards)
    requires |g.pending| == 2 && g.pending[0] < DeckSize && g.pending[1] < DeckSize && g.pending[0] != g.pending[1]
    requires g.timers == [ResolutionFor(g)]
    ensures MatchedInPairs(Resolve(g).cards)
  {
    var r := g.timers[0];
    FindInValid(g, g.pending[0]);
    FindInValid(g, g.pending[1]);
    PairsAfterResolution(g.cards, Resolve(g).cards, r);
  }

  /** Resolving two distinct cards, matched only when their emojis agree, keeps matched cards in pairs. */
  lemma PairsAfterResolution(c: seq<Card>, c': seq<Card>, r: Resolution)
    requires WellDealt(c) && MatchedInPairs(c)
    requires r.first < DeckSize && r.second < DeckSize && r.first != r.second
    requires r.same == (c[r.first].emoji == c[r.second].emoji)
    requires |c'| == |c|
    requires forall i :: 0 <= i < |c| ==> c'[i] == (if c[i].id == r.first || c[i].id == r.second then
                                                     (if r.same then c[i].(matched := true) else c[i].(flipped := false))
                                                   else c[i])
    ensures MatchedInPairs(c')
  {
    forall i, j
      ensures PairAgrees(c', i, j)
    {
      assert PairAgrees(c, i, j);
      if 0 <= i < DeckSize && 0 <= j < DeckSize && r.same && i != j {
        var a, b := r.first, r.second;
        assert NotThree(c, a, b, j) && NotThree(c, a, b, i);
        assert NotThree(c, b, a, j) && NotThree(c, b, a, i);
      }
    }
  }

  lemma ResolveClearsPending(g: Game)
    requires |g.cards| == DeckSize && PendingOk(g) && TimerOk(g) && |g.timers| > 0
    requires forall i :: 0 <= i < |g.cards| ==> g.cards[i].id == i
    ensures PendingOk(Resolve(g)) && TimerOk(Resolve(g))
  {
    var r := g.timers[0];
    assert |g.pending| == 2 && r == ResolutionFor(g);
    var a, b := g.pending[0], g.pending[1];
    assert r.first == a && r.second == b;
    forall i | 0 <= i < |g.cards| && g.cards[i].flipped && !g.cards[i].matched
      ensures g.cards[i].id == a || g.cards[i].id == b
    {
      assert i in g.pending;
    }
    NoneLeftUp(g.cards, Resolve(g).cards, a, b, r.same);
  }

  /** Resolving the pair whose two ids cover every face-up unmatched card leaves none face up and unmatched. */
  lemma NoneLeftUp(c: seq<Card>, c': seq<Card>, a: nat, b: nat, same: bool)
    requires |c'| == |c|
    requires forall i :: 0 <= i < |c| ==> c'[i] == (if c[i].id == a || c[i].id == b then
                                                     (if same then c[i].(matched := true) else c[i].(flipped := false))
                                                   else c[i])
    requires forall i :: 0 <= i < |c| && c[i].flipped && !c[i].matched ==> c[i].id == a || c[i].id == b
    ensures forall i :: 0 <= i < |c'| ==> !(c'[i].flipped && !c'[i].matched)
  {
  }

  lemma ResolvePreservesValid(g: Game)
    requires Valid(g) && |g.timers| > 0
    ensures Valid(Resolve(g))
  {
    var g' := Resolve(g);
    assert SameFaces(g.cards, g'.cards);
    SameFacesWellDealt(g.cards, g'.cards);
    assert |g.pending| == 2 && g.pending[0] < DeckSize && g.pending[1] < DeckSize;
    ResolveKeepsPairs(g);
    ResolveClearsPending(g);
    assert AllMatched(g.cards) ==> AllMatched(g'.cards);
  }

  // ---------------------------------------------------------------------------
  // Properties of the events

  /** A turned card is the only card that changes, and it goes on the pending list. */
  lemma ClickTurnsOneCard(g: Game, id: nat)
    requires Valid(g) && id < DeckSize
    requires g.canFlip && id !in g.pending && !g.cards[id].flipped && !g.cards[id].matched
    ensures var g' := Click(g, id);
      && g'.cards[id] == g.cards[id].(flipped := true)
      && (forall i :: 0 <= i < DeckSize && i != id ==> g'.cards[i] == g.cards[i])
      && g'.pending == g.pending + [id]
      && (|g'.pending| == 2 ==> g'.moves == g.moves + 1 && !g'.canFlip)
      && (|g'.pending| < 2 ==> g'.moves == g.moves && g'.canFlip)
  {
    FindInValid(g, id);
  }

  /** Matching is permanent: no click or resolution unmatches a card. */
  lemma MatchedStaysMatched(g: Game, id: nat, i: nat)
    requires Valid(g) && i < DeckSize && g.cards[i].matched
    ensures Click(g, id).cards[i].matched
    ensures |g.timers| > 0 ==> Resolve(g).cards[i].matched
  {
  }

  /** In a valid game, completion is exactly "every card matched". */
  lemma CompleteMeansAllMatched(g: Game)
    requires Valid(g)
    ensures g.complete <==> forall i :: 0 <= i < DeckSize ==> g.cards[i].matched
  {
  }

  // ---------------------------------------------------------------------------
  // The uncancelled timer

  /** The identity shuffle: the deck in `[...emojis, ...emojis]` order. */
  function InOrder(): seq<nat> {
    seq(DeckSize, i requires 0 <= i < DeckSize => i)
  }

  /** The identity shuffle with positions 1 and 8 exchanged. */
  function SwapOneEight(): seq<nat> {
    seq(DeckSize, i requires 0 <= i < DeckSize => if i == 1 then 8 else if i == 8 then 1 else i)
  }

  /** With no resolution scheduled, the as-written reset and the corrected one agree. */
  lemma InitializeAgreesWhenIdle(g: Game, perm: seq<nat>)
    requires IsShuffle(perm) && g.timers == []
    ensures InitializeAsWritten(g, perm) == Initialize(perm)
  {
  }

  lemma ShufflesAreShuffles()
    ensures IsShuffle(InOrder()) && IsShuffle(SwapOneEight())
  {
    var io := InOrder();
    var sw := SwapOneEight();
    forall v | 0 <= v < DeckSize
      ensures v in io && v in sw
    {
      assert io[v] == v;
      if v == 1 {
        assert sw[8] == 1;
      } else if v == 8 {
        assert sw[1] == 8;
      } else {
        assert sw[v] == v;
      }
    }
  }

  /** Turning cards 0 and 8 of the ordered deck (the first emoji twice) schedules a match. */
  lemma TurnFirstPair()
    ensures IsShuffle(InOrder())
    ensures var g := Click(Click(Initialize(InOrder()), 0), 8);
      g.timers == [Resolution(0, 8, true)]
  {
    ShufflesAreShuffles();
    var g0 := Initialize(InOrder());
    InitializeValid(InOrder());
    ClickTurnsOneCard(g0, 0);
    var g1 := Click(g0, 0);
    ClickPreservesValid(g0, 0);
    ClickTurnsOneCard(g1, 8);
    var g := Click(g1, 8);
    ClickPreservesValid(g1, 8);
    assert g.pending == [0, 8];
    FindInValid(g, 0);
    FindInValid(g, 8);
    assert g.cards[0].emoji == Emojis[0] == g.cards[8].emoji;
  }

  /**
   * Turning the matching cards 0 and 8 and pressing Reset within the second
   * lets the old timer mark cards 0 and 8 of the NEW deck as matched, though
   * they now hold different emojis. Card 1 carries the same emoji as card 0
   * and stays unmatched; its only partner is already matched, and clicks on
   * matched cards are ignored, so card 1 can no longer be paired.
   */
  lemma ResetDuringResolutionBreaksPairs()
    ensures IsShuffle(InOrder()) && IsShuffle(SwapOneEight())
    ensures var g := Click(Click(Initialize(InOrder()), 0), 8);
      var g' := InitializeAsWritten(g, SwapOneEight());
      && |g'.timers| == 1
      && var h := Resolve(g');
      && h.cards[0].matched && h.cards[8].matched && !h.cards[1].matched
      && h.cards[0].emoji == h.cards[1].emoji != h.cards[8].emoji
      && !MatchedInPairs(h.cards)
  {
    ShufflesAreShuffles();
    TurnFirstPair();
    var g := Click(Click(Initialize(InOrder()), 0), 8);
    var g' := InitializeAsWritten(g, SwapOneEight());
    var h := Resolve(g');
    assert g'.cards[0].emoji == Emojis[0] && g'.cards[1].emoji == Emojis[0] && g'.cards[8].emoji == Emojis[1];
    EmojisDistinct();
    assert !PairAgrees(h.cards, 0, 1);
  }
}
