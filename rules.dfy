/** The match as a value: deck, discard pile, players, turn pointer and end
    flag. Every move of `VirusGame` is specified here as a function (or, where
    the source draws or shuffles, a relation) from the state before to the state
    after, and the conservation of cards and the shape invariant are proved
    about those. */
module Rules {
  import opened Wrappers
  import opened Cards
  import opened Seqs
  import opened Stacks
  import opened Players

  /** `mazo`, `ozam`, the players, `currentPlayer` and `finDeLaPartida`. */
  datatype GameState = GameState(deck: seq<Card>, discard: seq<Card>, seats: seq<Seat>, current: int, ended: bool)

  /** What a completed turn did: the actor won, or drew a card and passed the
      turn on. */
  datatype Turn = Won | Passed(drawn: Card)

  /** The outcome of a card effect: whether the played card is then discarded
      (`true`) or stays where the effect put it, and the new state. */
  datatype Applied = Applied(discardIt: bool, after: GameState)

  // ---------------------------------------------------------------------------
  // Cards in play

  function StacksBag(ss: seq<Stack>): multiset<Card>
  {
    if ss == [] then multiset{} else multiset(ss[0]) + StacksBag(ss[1..])
  }

  function SeatBag(s: Seat): multiset<Card>
  {
    multiset(s.hand) + StacksBag(s.stacks)
  }

  function SeatsBag(seats: seq<Seat>): multiset<Card>
  {
    if seats == [] then multiset{} else SeatBag(seats[0]) + SeatsBag(seats[1..])
  }

  /** Every card of the match, wherever it lies. */
  function Bag(g: GameState): multiset<Card>
  {
    multiset(g.deck) + multiset(g.discard) + SeatsBag(g.seats)
  }

  function StacksSize(ss: seq<Stack>): nat
  {
    if ss == [] then 0 else |ss[0]| + StacksSize(ss[1..])
  }

  function SeatsSize(seats: seq<Seat>): nat
  {
    if seats == [] then 0 else |seats[0].hand| + StacksSize(seats[0].stacks) + SeatsSize(seats[1..])
  }

  /** The total that `invariantes` computes: discard, deck, and each player's
      hand plus the sizes of their stacks. */
  function CardCount(g: GameState): nat
  {
    |g.discard| + |g.deck| + SeatsSize(g.seats)
  }

  lemma {:induction false} StacksSizeIsBag(ss: seq<Stack>)
    ensures StacksSize(ss) == |StacksBag(ss)|
  {
    if ss != [] {
      StacksSizeIsBag(ss[1..]);
    }
  }

  lemma {:induction false} SeatsSizeIsBag(seats: seq<Seat>)
    ensures SeatsSize(seats) == |SeatsBag(seats)|
  {
    if seats != [] {
      StacksSizeIsBag(seats[0].stacks);
      SeatsSizeIsBag(seats[1..]);
    }
  }

  /** The count of `invariantes` is the size of the bag of all cards, so a
      move that keeps the bag keeps the count. */
  /** One copy of the same card added to both sides cancels out. */
  lemma CancelCard(x: multiset<Card>, y: multiset<Card>, c: Card)
    requires x + multiset{c} == y + multiset{c}
    ensures x == y
  {
    forall z ensures x[z] == y[z] {
      assert (x + multiset{c})[z] == (y + multiset{c})[z];
    }
  }

  lemma CardCountIsBagSize(g: GameState)
    ensures CardCount(g) == |Bag(g)|
  {
    SeatsSizeIsBag(g.seats);
  }

  lemma {:induction false} StacksBagUpdate(ss: seq<Stack>, k: nat, s: Stack)
    requires k < |ss|
    ensures StacksBag(ss[k := s]) + multiset(ss[k]) == StacksBag(ss) + multiset(s)
  {
    var t := ss[k := s];
    if k > 0 {
      var u := ss[1..][k - 1 := s];
      assert t[1..] == u && t[0] == ss[0];
      StacksBagUpdate(ss[1..], k - 1, s);
      forall x ensures (StacksBag(t) + multiset(ss[k]))[x] == (StacksBag(ss) + multiset(s))[x] {
        assert (StacksBag(u) + multiset(ss[1..][k - 1]))[x] == (StacksBag(ss[1..]) + multiset(s))[x];
      }
    } else {
      assert t[1..] == ss[1..];
    }
  }

  lemma {:induction false} StacksBagAppend(ss: seq<Stack>, tt: seq<Stack>)
    ensures StacksBag(ss + tt) == StacksBag(ss) + StacksBag(tt)
  {
    if ss == [] {
      assert ss + tt == tt;
    } else {
      assert (ss + tt)[1..] == ss[1..] + tt;
      StacksBagAppend(ss[1..], tt);
    }
  }

  lemma {:induction false} StacksBagRemoveAt(ss: seq<Stack>, k: nat)
    requires k < |ss|
    ensures StacksBag(RemoveAt(ss, k)) + multiset(ss[k]) == StacksBag(ss)
  {
    if k == 0 {
      assert RemoveAt(ss, k) == ss[1..];
    } else {
      var r := RemoveAt(ss, k);
      assert r[0] == ss[0] && r[1..] == RemoveAt(ss[1..], k - 1);
      StacksBagRemoveAt(ss[1..], k - 1);
    }
  }

  lemma StacksBagSingle(s: Stack)
    ensures StacksBag([s]) == multiset(s)
  {
    assert [s][1..] == [];
  }

  lemma {:induction false} SeatsBagUpdate(seats: seq<Seat>, i: nat, s: Seat)
    requires i < |seats|
    ensures SeatsBag(seats[i := s]) + SeatBag(seats[i]) == SeatsBag(seats) + SeatBag(s)
  {
    var t := seats[i := s];
    if i > 0 {
      var u := seats[1..][i - 1 := s];
      assert t[1..] == u && t[0] == seats[0];
      SeatsBagUpdate(seats[1..], i - 1, s);
      forall x ensures (SeatsBag(t) + SeatBag(seats[i]))[x] == (SeatsBag(seats) + SeatBag(s))[x] {
        assert (SeatsBag(u) + SeatBag(seats[1..][i - 1]))[x] == (SeatsBag(seats[1..]) + SeatBag(s))[x];
      }
    } else {
      assert t[1..] == seats[1..];
    }
  }

  /** Replacing one player's hand changes the bag by exactly the two hands. */
  lemma BagWithHand(g: GameState, i: nat, hand: seq<Card>)
    requires i < |g.seats|
    ensures Bag(WithHand(g, i, hand)) + multiset(g.seats[i].hand) == Bag(g) + multiset(hand)
  {
    var s := g.seats[i].(hand := hand);
    SeatsBagUpdate(g.seats, i, s);
    forall x ensures (Bag(WithHand(g, i, hand)) + multiset(g.seats[i].hand))[x] == (Bag(g) + multiset(hand))[x] {
      assert (SeatsBag(g.seats[i := s]) + SeatBag(g.seats[i]))[x] == (SeatsBag(g.seats) + SeatBag(s))[x];
    }
  }

  /** Replacing one player's stacks changes the bag by exactly the two tables. */
  lemma BagWithStacks(g: GameState, i: nat, stacks: seq<Stack>)
    requires i < |g.seats|
    ensures Bag(WithStacks(g, i, stacks)) + StacksBag(g.seats[i].stacks) == Bag(g) + StacksBag(stacks)
  {
    var s := g.seats[i].(stacks := stacks);
    SeatsBagUpdate(g.seats, i, s);
    forall x ensures (Bag(WithStacks(g, i, stacks)) + StacksBag(g.seats[i].stacks))[x] == (Bag(g) + StacksBag(stacks))[x] {
      assert (SeatsBag(g.seats[i := s]) + SeatBag(g.seats[i]))[x] == (SeatsBag(g.seats) + SeatBag(s))[x];
    }
  }

  // ---------------------------------------------------------------------------
  // The shape invariant

  /** No two players share a name. */
  predicate UniqueNames(seats: seq<Seat>)
  {
    forall j, k :: 0 <= j < k < |seats| ==> seats[j].auth.playerId != seats[k].auth.playerId
  }

  /** What every move keeps: a turn pointer that is -1 or a player, unique
      names, and every table made of well-formed stacks with distinct organs. */
  predicate WellFormed(g: GameState)
  {
    && -1 <= g.current < |g.seats|
    && UniqueNames(g.seats)
    && (forall k :: 0 <= k < |g.seats| ==> NonEmptyStacks(g.seats[k].stacks))
    && (forall k :: 0 <= k < |g.seats| ==> WellFormedStacks(g.seats[k].stacks))
  }

  lemma WellFormedWithHand(g: GameState, i: nat, hand: seq<Card>)
    requires WellFormed(g) && i < |g.seats|
    ensures WellFormed(WithHand(g, i, hand))
  {
    var h := WithHand(g, i, hand);
    assert forall k :: 0 <= k < |h.seats| ==> h.seats[k].stacks == g.seats[k].stacks && h.seats[k].auth == g.seats[k].auth;
  }

  lemma WellFormedWithStacks(g: GameState, i: nat, stacks: seq<Stack>)
    requires WellFormed(g) && i < |g.seats| && WellFormedStacks(stacks)
    ensures WellFormed(WithStacks(g, i, stacks))
  {
    var h := WithStacks(g, i, stacks);
    assert forall k :: 0 <= k < |h.seats| ==> h.seats[k].auth == g.seats[k].auth;
    assert forall k :: 0 <= k < |stacks| ==> WellFormedStack(stacks[k]);
  }

  // ---------------------------------------------------------------------------
  // Finding players

  /** `player(name)` / `findPlayer(name)`: the first player of that name. */
  function FindSeat(seats: seq<Seat>, name: string): (r: Option<nat>)
    ensures r.None? <==> forall k :: 0 <= k < |seats| ==> seats[k].auth.playerId != name
    ensures r.Some? ==> r.value < |seats| && seats[r.value].auth.playerId == name
    ensures r.Some? ==> forall k :: 0 <= k < r.value ==> seats[k].auth.playerId != name
  {
    var k := FirstWhere(seats, (s: Seat) => s.auth.playerId == name);
    if k < |seats| then Some(k) else None
  }

  /** With unique names a player is found exactly at its own position. */
  lemma FindSeatUnique(seats: seq<Seat>, k: nat)
    requires UniqueNames(seats) && k < |seats|
    ensures FindSeat(seats, seats[k].auth.playerId) == Some(k)
  {
  }

  /** `asCurrentPlayer` followed by `isJugando`: the caller's name must exist,
      the password must match, the turn pointer must be on that player, and the
      match must not be over. The result is the actor's position. */
  function Actor(g: GameState, auth: Auth): (r: Result<nat>)
    ensures r.Ok? ==> r.value == g.current && 0 <= g.current < |g.seats| && g.seats[g.current].auth == auth && !g.ended
    ensures g.ended ==> r.Err?
    ensures r.Err? ==> r.error in {UnknownPlayer, BadCredentials, NotYourTurn, GameOver}
  {
    match FindSeat(g.seats, auth.playerId)
    case None => Err(UnknownPlayer)
    case Some(k) =>
      if g.seats[k].auth != auth then Err(BadCredentials)
      else if !(0 <= g.current && k == g.current) then Err(NotYourTurn)
      else if g.ended then Err(GameOver)
      else Ok(k)
  }

  /** On a well-formed state the checks of `Actor` pass exactly for the
      credentials of the player at the turn pointer while the match runs, and
      each failure names the first check that fails. */
  lemma ActorCases(g: GameState, auth: Auth)
    requires WellFormed(g)
    ensures Actor(g, auth).Ok? <==> 0 <= g.current && g.seats[g.current].auth == auth && !g.ended
    ensures (forall k :: 0 <= k < |g.seats| ==> g.seats[k].auth.playerId != auth.playerId) ==> Actor(g, auth) == Err(UnknownPlayer)
    ensures (exists k :: 0 <= k < |g.seats| && g.seats[k].auth.playerId == auth.playerId && g.seats[k].auth != auth) ==> Actor(g, auth) == Err(BadCredentials)
    ensures (exists k :: 0 <= k < |g.seats| && g.seats[k].auth == auth && k != g.current) ==> Actor(g, auth) == Err(NotYourTurn)
  {
    if 0 <= g.current && g.seats[g.current].auth == auth {
      FindSeatUnique(g.seats, g.current);
    }
    if exists k :: 0 <= k < |g.seats| && g.seats[k].auth.playerId == auth.playerId {
      var k :| 0 <= k < |g.seats| && g.seats[k].auth.playerId == auth.playerId;
      FindSeatUnique(g.seats, k);
    }
  }

  /** What a card effect may not change: the deck, the players and their
      credentials, the turn pointer and the end flag. */
  predicate SameTable(g: GameState, h: GameState)
  {
    && h.deck == g.deck
    && |h.seats| == |g.seats|
    && (forall k :: 0 <= k < |g.seats| ==> h.seats[k].auth == g.seats[k].auth)
    && h.current == g.current
    && h.ended == g.ended
  }

  lemma ActorOnSameTable(g: GameState, h: GameState, auth: Auth)
    requires SameTable(g, h)
    ensures Actor(h, auth) == Actor(g, auth)
  {
    assert FindSeat(h.seats, auth.playerId) == FindSeat(g.seats, auth.playerId);
  }

  // ---------------------------------------------------------------------------
  // Drawing and handing off the turn

  /** `cogeCarta`: the first deck card is drawn; when the deck is empty the
      whole discard pile is first shuffled into it, so the card comes from a
      permutation of the discard pile, and the discard pile is left empty. */
  predicate Drew(deck: seq<Card>, discard: seq<Card>, c: Card, deck': seq<Card>, discard': seq<Card>)
  {
    if deck != [] then c == deck[0] && deck' == deck[1..] && discard' == discard
    else discard != [] && discard' == [] && multiset(deck') + multiset{c} == multiset(discard)
  }

  /** A draw loses no card and invents none. */
  lemma DrewKeepsCards(deck: seq<Card>, discard: seq<Card>, c: Card, deck': seq<Card>, discard': seq<Card>)
    requires Drew(deck, discard, c, deck', discard')
    ensures multiset(deck') + multiset(discard') + multiset{c} == multiset(deck) + multiset(discard)
    ensures deck != [] || discard != []
  {
    if deck != [] {
      assert deck == [deck[0]] + deck[1..];
    }
  }

  function WithHand(g: GameState, i: nat, hand: seq<Card>): GameState
    requires i < |g.seats|
  {
    g.(seats := g.seats[i := g.seats[i].(hand := hand)])
  }

  function WithStacks(g: GameState, i: nat, stacks: seq<Stack>): GameState
    requires i < |g.seats|
  {
    g.(seats := g.seats[i := g.seats[i].(stacks := stacks)])
  }

  /** `ganaOrobayturno` for the player at `i`: with more than three healthy
      stacks the match ends and nothing else changes; otherwise, if a card can
      be drawn, it joins that player's hand and the turn pointer moves to the
      next player; if none can, the draw throws and nothing changes. */
  predicate HandedOff(g: GameState, i: nat, r: Result<Turn>, g': GameState)
    requires i < |g.seats|
  {
    if IsWinning(g.seats[i].stacks) then r == Ok(Won) && g' == g.(ended := true)
    else if g.deck == [] && g.discard == [] then r == Err(OutOfCards) && g' == g
    else
      && r.Ok? && r.value.Passed?
      && Drew(g.deck, g.discard, r.value.drawn, g'.deck, g'.discard)
      && g'.seats == g.seats[i := g.seats[i].(hand := g.seats[i].hand + [r.value.drawn])]
      && g'.current == (g.current + 1) % |g.seats|
      && g'.ended == g.ended
  }

  /** Handing off keeps every card and the shape invariant; the choice between
      winning and drawing depends only on the actor's stacks. */
  lemma HandOffKeeps(g: GameState, i: nat, r: Result<Turn>, g': GameState)
    requires WellFormed(g) && i < |g.seats| && HandedOff(g, i, r, g')
    ensures WellFormed(g')
    ensures Bag(g') == Bag(g)
    ensures r.Ok? && r.value.Won? <==> IsWinning(g.seats[i].stacks)
    ensures r.Ok? && r.value.Passed? ==> |g'.seats[i].hand| == |g.seats[i].hand| + 1 && 0 <= g'.current < |g.seats|
    ensures r.Err? ==> r.error == OutOfCards && g' == g
  {
    if !IsWinning(g.seats[i].stacks) && r.Ok? {
      DrawnKeeps(g, i, r.value.drawn, g');
    }
  }

  lemma DrawnKeeps(g: GameState, i: nat, c: Card, g': GameState)
    requires WellFormed(g) && i < |g.seats|
    requires Drew(g.deck, g.discard, c, g'.deck, g'.discard)
    requires g'.seats == g.seats[i := g.seats[i].(hand := g.seats[i].hand + [c])]
    requires g'.current == (g.current + 1) % |g.seats|
    ensures WellFormed(g') && Bag(g') == Bag(g)
  {
    var hand := g.seats[i].hand + [c];
    var h := WithHand(g, i, hand);
    DrewKeepsCards(g.deck, g.discard, c, g'.deck, g'.discard);
    BagWithHand(g, i, hand);
    WellFormedWithHand(g, i, hand);
    assert g'.seats == h.seats;
    forall x ensures Bag(g')[x] == Bag(g)[x] {
      assert (multiset(g'.deck) + multiset(g'.discard) + multiset{c})[x] == (multiset(g.deck) + multiset(g.discard))[x];
      assert (Bag(h) + multiset(g.seats[i].hand))[x] == (Bag(g) + multiset(hand))[x];
      assert multiset(hand)[x] == multiset(g.seats[i].hand)[x] + multiset{c}[x];
    }
  }

  // ---------------------------------------------------------------------------
  // Discarding or passing: `tirar`

  /** A held card moves from the hand to the top of the discard pile. */
  function Discarded(g: GameState, i: nat, c: Card): (h: GameState)
    requires i < |g.seats| && c in g.seats[i].hand
    ensures SameTable(g, h) && h.discard == g.discard + [c]
    ensures |h.seats[i].hand| == |g.seats[i].hand| - 1
    ensures multiset(h.seats[i].hand) == multiset(g.seats[i].hand) - multiset{c}
    ensures h.seats[i].stacks == g.seats[i].stacks
    ensures forall k :: 0 <= k < |g.seats| && k != i ==> h.seats[k] == g.seats[k]
  {
    RemoveFirstBag(g.seats[i].hand, c);
    WithHand(g, i, RemoveFirst(g.seats[i].hand, c)).(discard := g.discard + [c])
  }

  lemma DiscardedKeeps(g: GameState, i: nat, c: Card)
    requires WellFormed(g) && i < |g.seats| && c in g.seats[i].hand
    ensures WellFormed(Discarded(g, i, c)) && Bag(Discarded(g, i, c)) == Bag(g)
  {
    var hand := RemoveFirst(g.seats[i].hand, c);
    var h := WithHand(g, i, hand);
    RemoveFirstBag(g.seats[i].hand, c);
    BagWithHand(g, i, hand);
    WellFormedWithHand(g, i, hand);
    var d := Discarded(g, i, c);
    assert d == h.(discard := g.discard + [c]);
    forall x ensures Bag(d)[x] == Bag(g)[x] {
      assert (Bag(h) + multiset(g.seats[i].hand))[x] == (Bag(g) + multiset(hand))[x];
      assert multiset(g.seats[i].hand)[x] == multiset(hand)[x] + multiset{c}[x];
      assert multiset(d.discard)[x] == multiset(g.discard)[x] + multiset{c}[x];
    }
  }

  /** `tirar` after the actor checks: discarding needs the card in hand, and
      passing needs fewer than three cards; then the turn is handed off. */
  predicate Tossed(g: GameState, i: nat, card: Option<Card>, r: Result<Turn>, g': GameState)
    requires i < |g.seats|
  {
    var hand := g.seats[i].hand;
    if card.Some? && card.value in hand then HandedOff(Discarded(g, i, card.value), i, r, g')
    else if card.None? && |hand| < 3 then HandedOff(g, i, r, g')
    else r == Err(MustPlayOrDiscard) && g' == g
  }

  lemma TossedKeeps(g: GameState, i: nat, card: Option<Card>, r: Result<Turn>, g': GameState)
    requires WellFormed(g) && i < |g.seats| && Tossed(g, i, card, r, g')
    ensures WellFormed(g') && Bag(g') == Bag(g)
  {
    if card.Some? && card.value in g.seats[i].hand {
      DiscardedKeeps(g, i, card.value);
      HandOffKeeps(Discarded(g, i, card.value), i, r, g');
    } else if card.None? && |g.seats[i].hand| < 3 {
      HandOffKeeps(g, i, r, g');
    }
  }

  // ---------------------------------------------------------------------------
  // Laying a card on a player: `aplayer`

  /** The actor's organ leaves the hand and becomes a new one-card stack. */
  function Claimed(g: GameState, i: nat, organ: Card): (h: GameState)
    requires i < |g.seats| && organ in g.seats[i].hand
    ensures SameTable(g, h) && h.discard == g.discard
    ensures multiset(h.seats[i].hand) == multiset(g.seats[i].hand) - multiset{organ}
    ensures h.seats[i].stacks == g.seats[i].stacks + [[organ]]
    ensures forall k :: 0 <= k < |g.seats| && k != i ==> h.seats[k] == g.seats[k]
  {
    RemoveFirstBag(g.seats[i].hand, organ);
    WithStacks(WithHand(g, i, RemoveFirst(g.seats[i].hand, organ)), i, g.seats[i].stacks + [[organ]])
  }

  /** Claiming an organ not yet on one's table keeps every card and the shape
      invariant. */
  lemma ClaimedKeeps(g: GameState, i: nat, organ: Card)
    requires WellFormed(g) && i < |g.seats| && organ in g.seats[i].hand
    requires IsOrgan(organ) && organ !in OrgansOf(g.seats[i].stacks)
    ensures WellFormed(Claimed(g, i, organ)) && Bag(Claimed(g, i, organ)) == Bag(g)
  {
    var ss := g.seats[i].stacks;
    var h1 := WithHand(g, i, RemoveFirst(g.seats[i].hand, organ));
    DropKeeps(g, i, organ);
    assert h1.seats[i].stacks == ss;
    NewStackKeeps(h1, i, organ);
    var h := Claimed(g, i, organ);
    assert h == WithStacks(h1, i, ss + [[organ]]);
    forall x ensures Bag(h)[x] == Bag(g)[x] {
      assert (Bag(h1) + multiset{organ})[x] == Bag(g)[x];
    }
  }

  /** An organ not yet on a table joins it as a new one-card stack. */
  lemma NewStackKeeps(g: GameState, i: nat, organ: Card)
    requires WellFormed(g) && i < |g.seats|
    requires IsOrgan(organ) && organ !in OrgansOf(g.seats[i].stacks)
    ensures var h := WithStacks(g, i, g.seats[i].stacks + [[organ]]);
      WellFormed(h) && Bag(h) == Bag(g) + multiset{organ}
  {
    var ss := g.seats[i].stacks;
    OrgansAreHeads(ss);
    assert forall m :: 0 <= m < |ss| ==> ss[m][0] != organ by {
      forall m | 0 <= m < |ss| ensures ss[m][0] != organ {
        assert Heads(ss)[m] == ss[m][0];
      }
    }
    CategoriesAreConstructors(organ);
    AppendStackKeeps(ss, [organ]);
    BagWithStacks(g, i, ss + [[organ]]);
    WellFormedWithStacks(g, i, ss + [[organ]]);
    StacksBagAppend(ss, [[organ]]);
    StacksBagSingle([organ]);
    var h := WithStacks(g, i, ss + [[organ]]);
    forall x ensures Bag(h)[x] == (Bag(g) + multiset{organ})[x] {
      assert (Bag(h) + StacksBag(ss))[x] == (Bag(g) + StacksBag(ss + [[organ]]))[x];
    }
  }

  /** Total transplant: the card leaves the actor's hand and is put nowhere,
      then the actor's and the target's tables are exchanged; on oneself the
      table stays as it was. */
  function SwappedTables(g: GameState, i: nat, j: nat): (h: GameState)
    requires i < |g.seats| && j < |g.seats| && TotalTransplant in g.seats[i].hand
    ensures SameTable(g, h) && h.discard == g.discard
    ensures multiset(h.seats[i].hand) == multiset(g.seats[i].hand) - multiset{TotalTransplant}
    ensures h.seats[i].stacks == g.seats[j].stacks && h.seats[j].stacks == g.seats[i].stacks
    ensures i != j ==> h.seats[j].hand == g.seats[j].hand
    ensures forall k :: 0 <= k < |g.seats| && k != i && k != j ==> h.seats[k] == g.seats[k]
  {
    RemoveFirstBag(g.seats[i].hand, TotalTransplant);
    var h := WithHand(g, i, RemoveFirst(g.seats[i].hand, TotalTransplant));
    if i == j then h
    else WithStacks(WithStacks(h, i, g.seats[j].stacks), j, g.seats[i].stacks)
  }

  /** Exchanging two players' tables keeps every card and the invariant. */
  lemma SwapKeeps(g: GameState, i: nat, j: nat)
    requires WellFormed(g) && i < |g.seats| && j < |g.seats| && i != j
    ensures var h := WithStacks(WithStacks(g, i, g.seats[j].stacks), j, g.seats[i].stacks);
      WellFormed(h) && Bag(h) == Bag(g)
  {
    var si := g.seats[i].stacks;
    var sj := g.seats[j].stacks;
    var h1 := WithStacks(g, i, sj);
    BagWithStacks(g, i, sj);
    WellFormedWithStacks(g, i, sj);
    assert h1.seats[j].stacks == sj;
    BagWithStacks(h1, j, si);
    WellFormedWithStacks(h1, j, si);
    var h := WithStacks(h1, j, si);
    forall x ensures Bag(h)[x] == Bag(g)[x] {
      assert (Bag(h1) + StacksBag(si))[x] == (Bag(g) + StacksBag(sj))[x];
      assert (Bag(h) + StacksBag(sj))[x] == (Bag(h1) + StacksBag(si))[x];
    }
  }

  /** Dropping one copy of a held card from a hand keeps the invariant and
      loses exactly that card. */
  lemma DropKeeps(g: GameState, i: nat, c: Card)
    requires WellFormed(g) && i < |g.seats| && c in g.seats[i].hand
    ensures var h := WithHand(g, i, RemoveFirst(g.seats[i].hand, c));
      WellFormed(h) && Bag(h) + multiset{c} == Bag(g)
  {
    var hand := RemoveFirst(g.seats[i].hand, c);
    RemoveFirstBag(g.seats[i].hand, c);
    BagWithHand(g, i, hand);
    WellFormedWithHand(g, i, hand);
    var h := WithHand(g, i, hand);
    forall x ensures (Bag(h) + multiset{c})[x] == Bag(g)[x] {
      assert (Bag(h) + multiset(g.seats[i].hand))[x] == (Bag(g) + multiset(hand))[x];
      assert multiset(g.seats[i].hand)[x] == multiset(hand)[x] + multiset{c}[x];
    }
  }

  /** A total transplant keeps the shape invariant, and the match is one card
      short afterwards: the transplant card itself is lost. */
  lemma SwappedTablesLosesCard(g: GameState, i: nat, j: nat)
    requires WellFormed(g) && i < |g.seats| && j < |g.seats| && TotalTransplant in g.seats[i].hand
    ensures WellFormed(SwappedTables(g, i, j))
    ensures Bag(SwappedTables(g, i, j)) + multiset{TotalTransplant} == Bag(g)
  {
    var h1 := WithHand(g, i, RemoveFirst(g.seats[i].hand, TotalTransplant));
    DropKeeps(g, i, TotalTransplant);
    if i != j {
      assert h1.seats[i].stacks == g.seats[i].stacks && h1.seats[j].stacks == g.seats[j].stacks;
      SwapKeeps(h1, i, j);
    }
  }

  /** `aplayer` after its checks, once the card has left the hand. */
  function PlayedOnPlayer(g: GameState, i: nat, j: nat, card: Card): GameState
    requires i < |g.seats| && j < |g.seats| && card in g.seats[i].hand
    requires IsOrgan(card) || card == TotalTransplant
  {
    if IsOrgan(card) then Claimed(g, i, card) else SwappedTables(g, i, j)
  }

  // ---------------------------------------------------------------------------
  // The all-discard treatment: `usarDescarte`

  /** The hands of every player but `i`, in seat order. */
  function OthersHands(seats: seq<Seat>, i: nat): seq<Card>
  {
    if seats == [] then []
    else OthersHands(seats[..|seats| - 1], i) + (if |seats| - 1 == i then [] else seats[|seats| - 1].hand)
  }

  /** Every player but `i` with an empty hand. */
  function EmptiedHands(seats: seq<Seat>, i: nat): (r: seq<Seat>)
    ensures |r| == |seats|
    ensures forall k :: 0 <= k < |seats| ==> r[k] == if k == i then seats[k] else seats[k].(hand := [])
  {
    seq(|seats|, k requires 0 <= k < |seats| => if k == i then seats[k] else seats[k].(hand := []))
  }

  /** The other players' hands go, in seat order, to the discard pile. */
  function OthersDiscarded(g: GameState, i: nat): (h: GameState)
    ensures SameTable(g, h)
  {
    g.(discard := g.discard + OthersHands(g.seats, i), seats := EmptiedHands(g.seats, i))
  }

  /** The body of the loop of `usarDescarte` for the seat at `k`: nothing
      for the actor, and any other hand discarded and emptied. */
  function EmptiedAt(h: GameState, i: nat, k: nat): (r: GameState)
    requires k < |h.seats|
    ensures r.deck == h.deck && r.current == h.current && r.ended == h.ended && |r.seats| == |h.seats|
  {
    if k == i then h
    else h.(discard := h.discard + h.seats[k].hand, seats := h.seats[k := h.seats[k].(hand := [])])
  }

  /** The loop of `usarDescarte` after its first `k` seats. */
  function DiscardedUpTo(g: GameState, i: nat, k: nat): (h: GameState)
    requires k <= |g.seats|
    ensures h.deck == g.deck && h.current == g.current && h.ended == g.ended && |h.seats| == |g.seats|
  {
    if k == 0 then g else EmptiedAt(DiscardedUpTo(g, i, k - 1), i, k - 1)
  }

  /** After `k` seats, their hands (but the actor's) are emptied, and the
      later seats are untouched. */
  lemma {:induction false} DiscardedUpToSeats(g: GameState, i: nat, k: nat)
    requires k <= |g.seats|
    ensures DiscardedUpTo(g, i, k).seats == EmptiedHands(g.seats[..k], i) + g.seats[k..]
  {
    if k == 0 {
      assert g.seats[..0] == [] && g.seats[0..] == g.seats;
    } else {
      DiscardedUpToSeats(g, i, k - 1);
      var h := DiscardedUpTo(g, i, k - 1);
      var front := g.seats[..k - 1];
      assert h.seats == EmptiedHands(front, i) + g.seats[k - 1..];
      assert h.seats[k - 1] == g.seats[k - 1];
      var e := EmptiedHands(g.seats[..k], i) + g.seats[k..];
      var r := DiscardedUpTo(g, i, k).seats;
      assert |e| == |r|;
      forall n | 0 <= n < |r| ensures r[n] == e[n] {
        if n < k - 1 {
          assert r[n] == h.seats[n] == EmptiedHands(front, i)[n];
        } else if n >= k {
          assert r[n] == h.seats[n] == g.seats[n];
        }
      }
    }
  }

  /** After `k` seats, their hands (but the actor's) are on the discard pile
      in seat order. */
  lemma {:induction false} DiscardedUpToDiscard(g: GameState, i: nat, k: nat)
    requires k <= |g.seats|
    ensures DiscardedUpTo(g, i, k).discard == g.discard + OthersHands(g.seats[..k], i)
  {
    if k == 0 {
      assert g.seats[..0] == [];
    } else {
      DiscardedUpToDiscard(g, i, k - 1);
      var h := DiscardedUpTo(g, i, k - 1);
      assert h.seats[k - 1] == g.seats[k - 1] by {
        DiscardedUpToSeats(g, i, k - 1);
        assert |EmptiedHands(g.seats[..k - 1], i)| == k - 1;
      }
      var prefix := g.seats[..k];
      assert prefix[..k - 1] == g.seats[..k - 1] && prefix[k - 1] == g.seats[k - 1];
      assert OthersHands(prefix, i) == OthersHands(g.seats[..k - 1], i) + (if k - 1 == i then [] else g.seats[k - 1].hand);
    }
  }

  /** The loop leaves every other hand discarded. */
  lemma DiscardedUpToEnds(g: GameState, i: nat)
    ensures DiscardedUpTo(g, i, |g.seats|) == OthersDiscarded(g, i)
  {
    DiscardedUpToSeats(g, i, |g.seats|);
    DiscardedUpToDiscard(g, i, |g.seats|);
    assert g.seats[..|g.seats|] == g.seats && g.seats[|g.seats|..] == [];
  }

  lemma {:induction false} SeatsBagSnoc(seats: seq<Seat>, s: Seat)
    ensures SeatsBag(seats + [s]) == SeatsBag(seats) + SeatBag(s)
  {
    if seats == [] {
      assert (seats + [s])[1..] == [];
    } else {
      assert (seats + [s])[1..] == seats[1..] + [s];
      SeatsBagSnoc(seats[1..], s);
    }
  }

  lemma {:induction false} EmptiedHandsBag(seats: seq<Seat>, i: nat)
    ensures SeatsBag(EmptiedHands(seats, i)) + multiset(OthersHands(seats, i)) == SeatsBag(seats)
    decreases |seats|
  {
    if seats != [] {
      var n := |seats| - 1;
      var front := seats[..n];
      assert seats == front + [seats[n]];
      assert EmptiedHands(seats, i) == EmptiedHands(front, i) + [EmptiedHands(seats, i)[n]];
      EmptiedHandsBag(front, i);
      SeatsBagSnoc(front, seats[n]);
      SeatsBagSnoc(EmptiedHands(front, i), EmptiedHands(seats, i)[n]);
      var e := EmptiedHands(seats, i);
      forall x ensures (SeatsBag(e) + multiset(OthersHands(seats, i)))[x] == SeatsBag(seats)[x] {
        assert (SeatsBag(EmptiedHands(front, i)) + multiset(OthersHands(front, i)))[x] == SeatsBag(front)[x];
      }
    }
  }

  /** The all-discard treatment keeps every card and the shape invariant, and
      leaves the actor's hand as it was. */
  lemma OthersDiscardedKeeps(g: GameState, i: nat)
    requires WellFormed(g) && i < |g.seats|
    ensures WellFormed(OthersDiscarded(g, i)) && Bag(OthersDiscarded(g, i)) == Bag(g)
    ensures OthersDiscarded(g, i).seats[i] == g.seats[i]
    ensures forall k :: 0 <= k < |g.seats| && k != i ==> OthersDiscarded(g, i).seats[k].hand == []
  {
    var h := OthersDiscarded(g, i);
    assert WellFormed(h) by {
      assert forall k :: 0 <= k < |h.seats| ==> h.seats[k].stacks == g.seats[k].stacks && h.seats[k].auth == g.seats[k].auth;
    }
    assert Bag(h) == Bag(g) by {
      EmptiedHandsBag(g.seats, i);
      assert multiset(h.discard) == multiset(g.discard) + multiset(OthersHands(g.seats, i));
    }
  }

  // ---------------------------------------------------------------------------
  // A virus on an opponent's organ: `aOtroUnVirus`

  /** The target must have a stack of that organ, the organ must take the
      virus and the stack must not be immune; then the virus cancels a
      medicine, destroys the organ, or infects it (see `VirusOnStack`). */
  function PlaceVirus(g: GameState, j: nat, virus: Card, organ: Card): (r: Result<Applied>)
    requires j < |g.seats| && NonEmptyStacks(g.seats[j].stacks)
    ensures r.Ok? <==> Lands(g.seats[j].stacks, virus, organ)
    ensures r.Ok? ==> SameTable(g, r.value.after) && r.value.after.seats[j].hand == g.seats[j].hand
    ensures r.Ok? ==> forall k :: 0 <= k < |g.seats| && k != j ==> r.value.after.seats[k] == g.seats[k]
    ensures r.Err? ==> r.error in {NotAnOrgan, NoSuchStack, NotAdmitted, ImmuneTarget}
  {
    var stacks := g.seats[j].stacks;
    var k :- FindStack(stacks, organ);
    if !Admits(organ, virus) then Err(NotAdmitted)
    else if IsImmune(stacks[k]) then Err(ImmuneTarget)
    else Ok(Landed(g, j, k, virus))
  }

  /** The guards of `aOtroUnVirus` pass: the organ is on the table, it takes
      the virus, and its stack is not immune. */
  predicate Lands(stacks: seq<Stack>, virus: Card, organ: Card)
    requires NonEmptyStacks(stacks)
  {
    && FindStack(stacks, organ).Ok? && Admits(organ, virus)
    && !IsImmune(stacks[FindStack(stacks, organ).value])
  }

  /** The virus meets the stack at `k` of player `j`: a cancelled medicine
      goes to the discard pile, a destroyed stack leaves the table with all
      its cards discarded, an infected stack carries the virus on top. */
  function Landed(g: GameState, j: nat, k: nat, virus: Card): Applied
    requires j < |g.seats| && k < |g.seats[j].stacks|
  {
    var stacks := g.seats[j].stacks;
    match VirusOnStack(stacks[k], virus)
    case Cancelled(rest, medicine) => Applied(true, WithStacks(g, j, stacks[k := rest]).(discard := g.discard + [medicine]))
    case Destroyed => Applied(true, WithStacks(g, j, RemoveAt(stacks, k)).(discard := g.discard + stacks[k]))
    case Infected(s) => Applied(false, WithStacks(g, j, stacks[k := s]))
  }

  /** `Landed` according to where the scan for a medicine or a virus
      stopped. */
  lemma LandedAt(g: GameState, j: nat, k: nat, virus: Card, n: nat)
    requires j < |g.seats| && k < |g.seats[j].stacks| && n == FirstWhere(g.seats[j].stacks[k], IsMedicineOrVirus)
    ensures var ss := g.seats[j].stacks; var s := ss[k];
      Landed(g, j, k, virus) ==
        if n == |s| then Applied(false, WithStacks(g, j, ss[k := s + [virus]]))
        else if IsMedicine(s[n]) then Applied(true, WithStacks(g.(discard := g.discard + [s[n]]), j, ss[k := RemoveFirst(s, s[n])]))
        else Applied(true, WithStacks(g.(discard := g.discard + s), j, RemoveAt(ss, k)))
  {
  }

  /** What a virus does, by the shape of the target stack, on a well-formed
      state; and when it fails. */
  lemma PlaceVirusCases(g: GameState, j: nat, virus: Card, organ: Card)
    requires WellFormed(g) && j < |g.seats| && IsVirus(virus) && IsOrgan(organ)
    ensures var r := PlaceVirus(g, j, virus, organ);
      && (FindStack(g.seats[j].stacks, organ).Err? ==> r == Err(NoSuchStack))
      && (FindStack(g.seats[j].stacks, organ).Ok? && !Admits(organ, virus) ==> r == Err(NotAdmitted))
      && (FindStack(g.seats[j].stacks, organ).Ok? && Admits(organ, virus) ==>
            var k := FindStack(g.seats[j].stacks, organ).value;
            var s := g.seats[j].stacks[k];
            && (|s| == 3 ==> r == Err(ImmuneTarget))
            && (|s| == 2 && IsMedicine(s[1]) ==>
                  r == Ok(Applied(true, WithStacks(g, j, g.seats[j].stacks[k := [organ]]).(discard := g.discard + [s[1]]))))
            && (|s| == 2 && IsVirus(s[1]) ==>
                  r == Ok(Applied(true, WithStacks(g, j, RemoveAt(g.seats[j].stacks, k)).(discard := g.discard + s))))
            && (|s| == 1 ==> r == Ok(Applied(false, WithStacks(g, j, g.seats[j].stacks[k := [organ, virus]])))))
  {
    var stacks := g.seats[j].stacks;
    if FindStack(stacks, organ).Ok? && Admits(organ, virus) {
      var k := FindStack(stacks, organ).value;
      var s := stacks[k];
      assert WellFormedStack(s);
      ImmuneIsThreeCards(s);
      if |s| < 3 {
        VirusOnShapes(s, virus);
      }
    }
  }

  /** Replacing one stack changes the bag by exactly the two stacks. */
  lemma BagWithStackAt(g: GameState, j: nat, k: nat, t: Stack)
    requires WellFormed(g) && j < |g.seats| && k < |g.seats[j].stacks|
    requires WellFormedStack(t) && t[0] == g.seats[j].stacks[k][0]
    ensures var h := WithStacks(g, j, g.seats[j].stacks[k := t]);
      WellFormed(h) && Bag(h) + multiset(g.seats[j].stacks[k]) == Bag(g) + multiset(t)
  {
    var stacks := g.seats[j].stacks;
    var ss := stacks[k := t];
    UpdateStackKeeps(stacks, k, t);
    WellFormedWithStacks(g, j, ss);
    BagWithStacks(g, j, ss);
    StacksBagUpdate(stacks, k, t);
    var h := WithStacks(g, j, ss);
    forall x ensures (Bag(h) + multiset(stacks[k]))[x] == (Bag(g) + multiset(t))[x] {
      assert (Bag(h) + StacksBag(stacks))[x] == (Bag(g) + StacksBag(ss))[x];
      assert (StacksBag(ss) + multiset(stacks[k]))[x] == (StacksBag(stacks) + multiset(t))[x];
    }
  }

  /** Removing one stack loses exactly its cards. */
  lemma BagWithoutStack(g: GameState, j: nat, k: nat)
    requires WellFormed(g) && j < |g.seats| && k < |g.seats[j].stacks|
    ensures var h := WithStacks(g, j, RemoveAt(g.seats[j].stacks, k));
      WellFormed(h) && Bag(h) + multiset(g.seats[j].stacks[k]) == Bag(g)
  {
    var stacks := g.seats[j].stacks;
    var ss := RemoveAt(stacks, k);
    RemoveStackKeeps(stacks, k);
    WellFormedWithStacks(g, j, ss);
    BagWithStacks(g, j, ss);
    StacksBagRemoveAt(stacks, k);
    var h := WithStacks(g, j, ss);
    forall x ensures (Bag(h) + multiset(stacks[k]))[x] == Bag(g)[x] {
      assert (Bag(h) + StacksBag(stacks))[x] == (Bag(g) + StacksBag(ss))[x];
      assert (StacksBag(ss) + multiset(stacks[k]))[x] == StacksBag(stacks)[x];
    }
  }

  /** A virus that lands keeps the shape invariant. When it cancels or
      destroys, the cards it touches go to the discard pile and the virus is
      discarded next from wherever it came; when it infects, it is on the
      table once more than before, until it leaves its origin. */
  lemma PlaceVirusKeeps(g: GameState, j: nat, virus: Card, organ: Card)
    requires WellFormed(g) && j < |g.seats| && IsVirus(virus)
    requires PlaceVirus(g, j, virus, organ).Ok?
    ensures var a := PlaceVirus(g, j, virus, organ).value;
      && WellFormed(a.after)
      && (a.discardIt ==> Bag(a.after) == Bag(g))
      && (!a.discardIt ==> Bag(a.after) == Bag(g) + multiset{virus})
  {
    var stacks := g.seats[j].stacks;
    var k := FindStack(stacks, organ).value;
    var s := stacks[k];
    assert Admits(organ, virus) && !IsImmune(s) && s[0] == organ;
    assert WellFormedStacks(stacks);
    assert WellFormedStack(s);
    VirusOnShapes(s, virus);
    ImmuneIsThreeCards(s);
    var a := PlaceVirus(g, j, virus, organ).value;
    if |s| == 1 {
      assert a == Applied(false, WithStacks(g, j, stacks[k := [s[0], virus]]));
      assert [s[0], virus] == s + [virus];
      GrowKeeps(g, j, k, virus);
    } else if IsMedicine(s[1]) {
      assert a == Applied(true, WithStacks(g, j, stacks[k := [s[0]]]).(discard := g.discard + [s[1]]));
      CancelKeeps(g, j, k);
    } else {
      assert a == Applied(true, WithStacks(g, j, RemoveAt(stacks, k)).(discard := g.discard + stacks[k]));
      DestroyKeeps(g, j, k);
    }
  }

  /** Cutting a two-card stack back to its organ loses the second card. */
  lemma CutKeeps(g: GameState, j: nat, k: nat)
    requires WellFormed(g) && j < |g.seats| && k < |g.seats[j].stacks| && |g.seats[j].stacks[k]| == 2
    ensures var s := g.seats[j].stacks[k];
      var h := WithStacks(g, j, g.seats[j].stacks[k := [s[0]]]);
      WellFormed(h) && Bag(h) + multiset{s[1]} == Bag(g)
  {
    var s := g.seats[j].stacks[k];
    assert WellFormedStack(s);
    var h := WithStacks(g, j, g.seats[j].stacks[k := [s[0]]]);
    BagWithStackAt(g, j, k, [s[0]]);
    assert s == [s[0]] + [s[1]];
    forall x ensures (Bag(h) + multiset{s[1]})[x] == Bag(g)[x] {
      assert (Bag(h) + multiset(s))[x] == (Bag(g) + multiset([s[0]]))[x];
      assert multiset(s)[x] == multiset([s[0]])[x] + multiset{s[1]}[x];
    }
  }

  lemma CancelKeeps(g: GameState, j: nat, k: nat)
    requires WellFormed(g) && j < |g.seats| && k < |g.seats[j].stacks|
    requires |g.seats[j].stacks[k]| == 2 && IsMedicine(g.seats[j].stacks[k][1])
    ensures var s := g.seats[j].stacks[k];
      var h := WithStacks(g, j, g.seats[j].stacks[k := [s[0]]]).(discard := g.discard + [s[1]]);
      WellFormed(h) && Bag(h) == Bag(g)
  {
    var s := g.seats[j].stacks[k];
    var h1 := WithStacks(g, j, g.seats[j].stacks[k := [s[0]]]);
    CutKeeps(g, j, k);
    var h := h1.(discard := g.discard + [s[1]]);
    forall x ensures Bag(h)[x] == Bag(g)[x] {
      assert (Bag(h1) + multiset{s[1]})[x] == Bag(g)[x];
    }
  }

  lemma DestroyKeeps(g: GameState, j: nat, k: nat)
    requires WellFormed(g) && j < |g.seats| && k < |g.seats[j].stacks|
    ensures var h := WithStacks(g, j, RemoveAt(g.seats[j].stacks, k)).(discard := g.discard + g.seats[j].stacks[k]);
      WellFormed(h) && Bag(h) == Bag(g)
  {
    var h1 := WithStacks(g, j, RemoveAt(g.seats[j].stacks, k));
    BagWithoutStack(g, j, k);
    var h := h1.(discard := g.discard + g.seats[j].stacks[k]);
    forall x ensures Bag(h)[x] == Bag(g)[x] {
      assert (Bag(h1) + multiset(g.seats[j].stacks[k]))[x] == Bag(g)[x];
    }
  }

  /** A card put on top of a stack is on the table once more than before. */
  lemma GrowKeeps(g: GameState, j: nat, k: nat, virus: Card)
    requires WellFormed(g) && j < |g.seats| && k < |g.seats[j].stacks|
    requires WellFormedStack(g.seats[j].stacks[k] + [virus])
    ensures var h := WithStacks(g, j, g.seats[j].stacks[k := g.seats[j].stacks[k] + [virus]]);
      WellFormed(h) && Bag(h) == Bag(g) + multiset{virus}
  {
    var s := g.seats[j].stacks[k];
    BagWithStackAt(g, j, k, s + [virus]);
    var h := WithStacks(g, j, g.seats[j].stacks[k := s + [virus]]);
    forall x ensures Bag(h)[x] == (Bag(g) + multiset{virus})[x] {
      assert (Bag(h) + multiset(s))[x] == (Bag(g) + multiset(s + [virus]))[x];
    }
  }

  // ---------------------------------------------------------------------------
  // Theft: `aOtroRobar`

  /** The target's stack at `k` moves whole to the end of the actor's table. */
  function Stolen(g: GameState, i: nat, j: nat, k: nat): (h: GameState)
    requires i < |g.seats| && j < |g.seats| && i != j && k < |g.seats[j].stacks|
    ensures SameTable(g, h) && h.discard == g.discard
    ensures forall n :: 0 <= n < |g.seats| ==> h.seats[n].hand == g.seats[n].hand
  {
    WithStacks(WithStacks(g, j, RemoveAt(g.seats[j].stacks, k)), i, g.seats[i].stacks + [g.seats[j].stacks[k]])
  }

  /** The target must have a stack of that organ, the stack must not be
      immune and the actor must not have that organ yet. */
  function Steal(g: GameState, i: nat, j: nat, organ: Card): (r: Result<Applied>)
    requires i < |g.seats| && j < |g.seats| && i != j
    requires NonEmptyStacks(g.seats[i].stacks) && NonEmptyStacks(g.seats[j].stacks)
    ensures r.Ok? ==> r.value.discardIt && SameTable(g, r.value.after) && r.value.after.discard == g.discard
    ensures r.Ok? ==> forall k :: 0 <= k < |g.seats| ==> r.value.after.seats[k].hand == g.seats[k].hand
    ensures r.Err? ==> r.error in {TargetLacksOrgan, ImmuneTarget, ActorHasOrgan}
  {
    var target := g.seats[j].stacks;
    match FindStack(target, organ)
    case Err(_) => Err(TargetLacksOrgan)
    case Ok(k) =>
      if IsImmune(target[k]) then Err(ImmuneTarget)
      else if FindStack(g.seats[i].stacks, organ).Ok? then Err(ActorHasOrgan)
      else Ok(Applied(true, Stolen(g, i, j, k)))
  }

  /** Moving a stack whose organ the actor lacks keeps every card and the
      shape invariant; only the two tables change. */
  lemma StolenKeeps(g: GameState, i: nat, j: nat, k: nat)
    requires WellFormed(g) && i < |g.seats| && j < |g.seats| && i != j && k < |g.seats[j].stacks|
    requires forall m :: 0 <= m < |g.seats[i].stacks| ==> g.seats[i].stacks[m][0] != g.seats[j].stacks[k][0]
    ensures var h := Stolen(g, i, j, k);
      && WellFormed(h) && Bag(h) == Bag(g)
      && |h.seats[i].stacks| == |g.seats[i].stacks| + 1
      && |h.seats[j].stacks| == |g.seats[j].stacks| - 1
      && h.seats[i].hand == g.seats[i].hand && h.seats[j].hand == g.seats[j].hand
  {
    var target := g.seats[j].stacks;
    var mine := g.seats[i].stacks;
    var s := target[k];
    var h1 := WithStacks(g, j, RemoveAt(target, k));
    BagWithoutStack(g, j, k);
    assert h1.seats[i].stacks == mine;
    assert WellFormedStacks(target) && WellFormedStack(s);
    AppendStackKeeps(mine, s);
    WellFormedWithStacks(h1, i, mine + [s]);
    BagWithStacks(h1, i, mine + [s]);
    StacksBagAppend(mine, [s]);
    StacksBagSingle(s);
    var h := WithStacks(h1, i, mine + [s]);
    forall x ensures Bag(h)[x] == Bag(g)[x] {
      assert (Bag(h1) + multiset(s))[x] == Bag(g)[x];
      assert (Bag(h) + StacksBag(mine))[x] == (Bag(h1) + StacksBag(mine + [s]))[x];
    }
  }

  lemma StealKeeps(g: GameState, i: nat, j: nat, organ: Card)
    requires WellFormed(g) && i < |g.seats| && j < |g.seats| && i != j
    requires Steal(g, i, j, organ).Ok?
    ensures WellFormed(Steal(g, i, j, organ).value.after) && Bag(Steal(g, i, j, organ).value.after) == Bag(g)
  {
    var k := FindStack(g.seats[j].stacks, organ).value;
    assert Steal(g, i, j, organ) == Ok(Applied(true, Stolen(g, i, j, k)));
    StolenKeeps(g, i, j, k);
  }

  // ---------------------------------------------------------------------------
  // Single transplant: `aOtroTransplanta`

  /** The transplant card is discarded and the actor's stack at `ka` and the
      target's stack at `kb` change owners, each going to the end of its new
      table. */
  function Transplanted(g: GameState, i: nat, j: nat, ka: nat, kb: nat): (h: GameState)
    requires i < |g.seats| && j < |g.seats| && i != j
    requires ka < |g.seats[i].stacks| && kb < |g.seats[j].stacks|
    ensures SameTable(g, h) && h.discard == g.discard + [SingleTransplant]
    ensures h.seats[i].hand == RemoveFirst(g.seats[i].hand, SingleTransplant)
    ensures forall k :: 0 <= k < |g.seats| && k != i ==> h.seats[k].hand == g.seats[k].hand
  {
    var si := g.seats[i].stacks;
    var sj := g.seats[j].stacks;
    var h := WithHand(g, i, RemoveFirst(g.seats[i].hand, SingleTransplant)).(discard := g.discard + [SingleTransplant]);
    WithStacks(WithStacks(h, i, RemoveAt(si, ka) + [sj[kb]]), j, RemoveAt(sj, kb) + [si[ka]])
  }

  /** The actor needs a single-transplant card; neither side may end up with
      an organ twice; both organs must be on their tables; the target's stack
      must not be immune (the actor's own stack is not checked). */
  function Transplant(g: GameState, i: nat, j: nat, mine: Card, theirs: Card): (r: Result<Applied>)
    requires i < |g.seats| && j < |g.seats| && i != j
    requires NonEmptyStacks(g.seats[i].stacks) && NonEmptyStacks(g.seats[j].stacks)
    ensures r.Ok? ==> !r.value.discardIt && SameTable(g, r.value.after)
    ensures r.Ok? ==> SingleTransplant in g.seats[i].hand && r.value.after.seats[i].hand == RemoveFirst(g.seats[i].hand, SingleTransplant)
    ensures r.Ok? ==> r.value.after.discard == g.discard + [SingleTransplant]
    ensures r.Ok? ==> forall k :: 0 <= k < |g.seats| && k != i ==> r.value.after.seats[k].hand == g.seats[k].hand
    ensures r.Err? ==> r.error in {NeedsTransplantCard, TargetHasOrgan, ActorHasOrgan, ActorLacksOrgan, TargetLacksOrgan, ImmuneTarget}
  {
    var si := g.seats[i].stacks;
    var sj := g.seats[j].stacks;
    if SingleTransplant !in g.seats[i].hand then Err(NeedsTransplantCard)
    else if !(FindStack(sj, mine).Err? || mine == theirs) then Err(TargetHasOrgan)
    else if !(FindStack(si, theirs).Err? || mine == theirs) then Err(ActorHasOrgan)
    else match FindStack(si, mine)
      case Err(_) => Err(ActorLacksOrgan)
      case Ok(ka) =>
        match FindStack(sj, theirs)
        case Err(_) => Err(TargetLacksOrgan)
        case Ok(kb) =>
          if IsImmune(sj[kb]) then Err(ImmuneTarget)
          else Ok(Applied(false, Transplanted(g, i, j, ka, kb)))
  }

  /** Moving the stack at `k` of player `i` away and appending `t` keeps that
      table well formed when no other stack there has the organ of `t`. */
  lemma ExchangeStackKeeps(ss: seq<Stack>, k: nat, t: Stack)
    requires WellFormedStacks(ss) && k < |ss| && WellFormedStack(t)
    requires forall m :: 0 <= m < |ss| && m != k ==> ss[m][0] != t[0]
    ensures WellFormedStacks(RemoveAt(ss, k) + [t])
    ensures StacksBag(RemoveAt(ss, k) + [t]) + multiset(ss[k]) == StacksBag(ss) + multiset(t)
  {
    var r := RemoveAt(ss, k);
    RemoveStackKeeps(ss, k);
    forall m | 0 <= m < |r| ensures r[m][0] != t[0] {
      if m < k {
        assert r[m] == ss[m];
      } else {
        assert r[m] == ss[m + 1];
      }
    }
    AppendStackKeeps(r, t);
    StacksBagRemoveAt(ss, k);
    StacksBagAppend(r, [t]);
    StacksBagSingle(t);
  }

  /** Exchanging two stacks whose organs the new owners lack (apart from the
      stack each gives away) keeps every card and the shape invariant. */
  lemma ExchangedKeeps(g: GameState, i: nat, j: nat, ka: nat, kb: nat)
    requires WellFormed(g) && i < |g.seats| && j < |g.seats| && i != j
    requires ka < |g.seats[i].stacks| && kb < |g.seats[j].stacks|
    requires forall m :: 0 <= m < |g.seats[i].stacks| && m != ka ==> g.seats[i].stacks[m][0] != g.seats[j].stacks[kb][0]
    requires forall m :: 0 <= m < |g.seats[j].stacks| && m != kb ==> g.seats[j].stacks[m][0] != g.seats[i].stacks[ka][0]
    ensures var si := g.seats[i].stacks;
      var sj := g.seats[j].stacks;
      var h := WithStacks(WithStacks(g, i, RemoveAt(si, ka) + [sj[kb]]), j, RemoveAt(sj, kb) + [si[ka]]);
      WellFormed(h) && Bag(h) == Bag(g)
  {
    var si := g.seats[i].stacks;
    var sj := g.seats[j].stacks;
    assert WellFormedStacks(si) && WellFormedStacks(sj);
    assert WellFormedStack(si[ka]) && WellFormedStack(sj[kb]);
    ExchangeStackKeeps(si, ka, sj[kb]);
    ExchangeStackKeeps(sj, kb, si[ka]);
    var ni := RemoveAt(si, ka) + [sj[kb]];
    var nj := RemoveAt(sj, kb) + [si[ka]];
    var h2 := WithStacks(g, i, ni);
    WellFormedWithStacks(g, i, ni);
    BagWithStacks(g, i, ni);
    assert h2.seats[j].stacks == sj;
    var h3 := WithStacks(h2, j, nj);
    WellFormedWithStacks(h2, j, nj);
    BagWithStacks(h2, j, nj);
    forall x ensures Bag(h3)[x] == Bag(g)[x] {
      assert (Bag(h2) + StacksBag(si))[x] == (Bag(g) + StacksBag(ni))[x];
      assert (Bag(h3) + StacksBag(sj))[x] == (Bag(h2) + StacksBag(nj))[x];
      assert (StacksBag(ni) + multiset(si[ka]))[x] == (StacksBag(si) + multiset(sj[kb]))[x];
      assert (StacksBag(nj) + multiset(sj[kb]))[x] == (StacksBag(sj) + multiset(si[ka]))[x];
    }
  }

  /** The transplant card moves from the hand to the discard pile. */
  lemma HandToDiscardKeeps(g: GameState, i: nat, c: Card)
    requires WellFormed(g) && i < |g.seats| && c in g.seats[i].hand
    ensures var h := WithHand(g, i, RemoveFirst(g.seats[i].hand, c)).(discard := g.discard + [c]);
      WellFormed(h) && Bag(h) == Bag(g)
  {
    var h0 := WithHand(g, i, RemoveFirst(g.seats[i].hand, c));
    DropKeeps(g, i, c);
    var h := h0.(discard := g.discard + [c]);
    forall x ensures Bag(h)[x] == Bag(g)[x] {
      assert (Bag(h0) + multiset{c})[x] == Bag(g)[x];
    }
  }

  lemma TransplantedKeeps(g: GameState, i: nat, j: nat, ka: nat, kb: nat)
    requires WellFormed(g) && i < |g.seats| && j < |g.seats| && i != j
    requires ka < |g.seats[i].stacks| && kb < |g.seats[j].stacks|
    requires SingleTransplant in g.seats[i].hand
    requires forall m :: 0 <= m < |g.seats[i].stacks| && m != ka ==> g.seats[i].stacks[m][0] != g.seats[j].stacks[kb][0]
    requires forall m :: 0 <= m < |g.seats[j].stacks| && m != kb ==> g.seats[j].stacks[m][0] != g.seats[i].stacks[ka][0]
    ensures WellFormed(Transplanted(g, i, j, ka, kb)) && Bag(Transplanted(g, i, j, ka, kb)) == Bag(g)
  {
    var h1 := WithHand(g, i, RemoveFirst(g.seats[i].hand, SingleTransplant)).(discard := g.discard + [SingleTransplant]);
    HandToDiscardKeeps(g, i, SingleTransplant);
    assert h1.seats[i].stacks == g.seats[i].stacks && h1.seats[j].stacks == g.seats[j].stacks;
    ExchangedKeeps(h1, i, j, ka, kb);
  }

  /** A single transplant keeps every card and the shape invariant: its
      guards ensure that neither player ends with an organ twice. */
  lemma TransplantKeeps(g: GameState, i: nat, j: nat, mine: Card, theirs: Card)
    requires WellFormed(g) && i < |g.seats| && j < |g.seats| && i != j
    requires Transplant(g, i, j, mine, theirs).Ok?
    ensures WellFormed(Transplant(g, i, j, mine, theirs).value.after)
    ensures Bag(Transplant(g, i, j, mine, theirs).value.after) == Bag(g)
  {
    var si := g.seats[i].stacks;
    var sj := g.seats[j].stacks;
    var ka := FindStack(si, mine).value;
    var kb := FindStack(sj, theirs).value;
    assert Transplant(g, i, j, mine, theirs) == Ok(Applied(false, Transplanted(g, i, j, ka, kb)));
    assert WellFormedStacks(si) && WellFormedStacks(sj);
    assert forall m :: 0 <= m < |si| && m != ka ==> si[m][0] != theirs by {
      if mine == theirs {
        assert forall m :: 0 <= m < |si| && m != ka ==> si[m][0] != si[ka][0];
      }
    }
    assert forall m :: 0 <= m < |sj| && m != kb ==> sj[m][0] != mine by {
      if mine == theirs {
        assert forall m :: 0 <= m < |sj| && m != kb ==> sj[m][0] != sj[kb][0];
      }
    }
    TransplantedKeeps(g, i, j, ka, kb);
  }

  // ---------------------------------------------------------------------------
  // A medicine on one's own organ: `aSuCarta`

  /** Only a medicine that the named organ takes; the organ must be on the
      actor's table; then `MedicineOnStack` decides. */
  function Medicate(g: GameState, i: nat, medicine: Card, organ: Card): (r: Result<Applied>)
    requires i < |g.seats| && NonEmptyStacks(g.seats[i].stacks)
    ensures r.Ok? ==> SameTable(g, r.value.after) && r.value.after.discard == g.discard
    ensures r.Ok? ==> forall k :: 0 <= k < |g.seats| ==> r.value.after.seats[k].hand == g.seats[k].hand
    ensures r.Err? ==> r.error in {OnlyMedicineOnSelf, MedicineDoesNotFit, NotAnOrgan, NoSuchStack, IncurableVirus, AlreadyImmune}
  {
    if !IsMedicine(medicine) then Err(OnlyMedicineOnSelf)
    else if !Admits(organ, medicine) then Err(MedicineDoesNotFit)
    else
      var stacks := g.seats[i].stacks;
      var k :- FindStack(stacks, organ);
      Treated(g, i, k, organ, medicine)
  }

  /** The medicine meets the actor's stack at `k`: a cured virus leaves the
      stack, a protected stack carries the medicine on top. */
  function Treated(g: GameState, i: nat, k: nat, organ: Card, medicine: Card): (r: Result<Applied>)
    requires i < |g.seats| && k < |g.seats[i].stacks|
  {
    var stacks := g.seats[i].stacks;
    match MedicineOnStack(stacks[k], organ, medicine)
    case Cured(rest, _) => Ok(Applied(true, WithStacks(g, i, stacks[k := rest])))
    case Incurable => Err(IncurableVirus)
    case Immune => Err(AlreadyImmune)
    case Protected(s) => Ok(Applied(false, WithStacks(g, i, stacks[k := s])))
  }

  /** `Treated` according to where the scan for a cure stopped. */
  lemma TreatedAt(g: GameState, i: nat, k: nat, organ: Card, medicine: Card, n: nat)
    requires i < |g.seats| && k < |g.seats[i].stacks| && n == FirstCure(g.seats[i].stacks[k], organ, medicine)
    ensures var ss := g.seats[i].stacks; var s := ss[k];
      Treated(g, i, k, organ, medicine) ==
        if n < |s| then Ok(Applied(true, WithStacks(g, i, ss[k := RemoveFirst(s, s[n])])))
        else if exists c | c in s :: IsVirus(c) then Err(IncurableVirus)
        else if IsImmune(s) then Err(AlreadyImmune)
        else Ok(Applied(false, WithStacks(g, i, ss[k := s + [medicine]])))
  {
  }

  /** What a medicine does on one's own well-formed table, and when it fails.
      An incurable virus never occurs on a well-formed table. */
  lemma MedicateCases(g: GameState, i: nat, medicine: Card, organ: Card)
    requires WellFormed(g) && i < |g.seats| && IsOrgan(organ)
    ensures var r := Medicate(g, i, medicine, organ);
      && (!IsMedicine(medicine) ==> r == Err(OnlyMedicineOnSelf))
      && (IsMedicine(medicine) && !Admits(organ, medicine) ==> r == Err(MedicineDoesNotFit))
      && (IsMedicine(medicine) && Admits(organ, medicine) && FindStack(g.seats[i].stacks, organ).Err? ==> r == Err(NoSuchStack))
      && r != Err(IncurableVirus)
      && (IsMedicine(medicine) && Admits(organ, medicine) && FindStack(g.seats[i].stacks, organ).Ok? ==>
            var k := FindStack(g.seats[i].stacks, organ).value;
            var s := g.seats[i].stacks[k];
            && (|s| == 3 ==> r == Err(AlreadyImmune))
            && (|s| == 2 && IsVirus(s[1]) ==> r == Ok(Applied(true, WithStacks(g, i, g.seats[i].stacks[k := [organ]]))))
            && (|s| < 3 && !(|s| == 2 && IsVirus(s[1])) ==>
                  r == Ok(Applied(false, WithStacks(g, i, g.seats[i].stacks[k := s + [medicine]])))))
  {
    var stacks := g.seats[i].stacks;
    if IsMedicine(medicine) && Admits(organ, medicine) && FindStack(stacks, organ).Ok? {
      var k := FindStack(stacks, organ).value;
      assert WellFormedStacks(stacks);
      assert WellFormedStack(stacks[k]);
      MedicineOnShapes(stacks[k], medicine);
      if |stacks[k]| == 1 {
        assert stacks[k] + [medicine] == [stacks[k][0], medicine];
      }
    }
  }

  /** A medicine keeps the shape invariant. A cure loses the cured virus: it
      leaves the table and is put nowhere (the medicine is discarded next). A
      protecting medicine is on the table once more than before, until it
      leaves the hand. */
  lemma MedicateKeeps(g: GameState, i: nat, medicine: Card, organ: Card)
    requires WellFormed(g) && i < |g.seats|
    requires Medicate(g, i, medicine, organ).Ok?
    ensures var a := Medicate(g, i, medicine, organ).value;
      var s := g.seats[i].stacks[FindStack(g.seats[i].stacks, organ).value];
      && WellFormed(a.after)
      && (a.discardIt ==> |s| == 2 && IsVirus(s[1]) && Bag(a.after) + multiset{s[1]} == Bag(g))
      && (!a.discardIt ==> Bag(a.after) == Bag(g) + multiset{medicine})
  {
    var stacks := g.seats[i].stacks;
    var k := FindStack(stacks, organ).value;
    var s := stacks[k];
    assert WellFormedStacks(stacks);
    assert WellFormedStack(s);
    MedicineOnShapes(s, medicine);
    ImmuneIsThreeCards(s);
    if |s| == 2 && IsVirus(s[1]) {
      assert Medicate(g, i, medicine, organ) == Ok(Applied(true, WithStacks(g, i, stacks[k := [s[0]]])));
      CutKeeps(g, i, k);
    } else {
      assert Medicate(g, i, medicine, organ) == Ok(Applied(false, WithStacks(g, i, stacks[k := s + [medicine]])));
      GrowKeeps(g, i, k, medicine);
    }
  }

  // ---------------------------------------------------------------------------
  // A card on an opponent's organ: `aOtroCarta`

  /** A virus, an organ (single transplant of the actor's organ of that kind
      for the target's named organ) or an organ theft; nothing else. */
  function OnOpponent(g: GameState, i: nat, j: nat, card: Card, organ: Card): (r: Result<Applied>)
    requires i < |g.seats| && j < |g.seats| && i != j
    requires NonEmptyStacks(g.seats[i].stacks) && NonEmptyStacks(g.seats[j].stacks)
    ensures r.Ok? ==> SameTable(g, r.value.after)
  {
    if IsVirus(card) then PlaceVirus(g, j, card, organ)
    else if IsOrgan(card) then Transplant(g, i, j, card, organ)
    else if card == OrganTheft then Steal(g, i, j, organ)
    else Err(IllegalOpponentCard)
  }
}
