/** The match object `VirusGame`: the deck `mazo`, the discard pile `ozam`,
    the seated players, the turn pointer and the end flag, updated in place by
    the public moves. Each method is proved to produce the outcome that the
    value-level rules specify for the state it started from. */
module Game {
  import opened Wrappers
  import opened Cards
  import opened Seqs
  import opened Stacks
  import opened Players
  import opened Rules
  import opened Infection
  import opened Moves

  /** The snapshots of the given players, in order. */
  function Seats(ps: seq<Player>): (r: seq<Seat>)
    reads ps
    ensures |r| == |ps|
    ensures forall k :: 0 <= k < |ps| ==> r[k] == ps[k].View()
  {
    if ps == [] then [] else [ps[0].View()] + Seats(ps[1..])
  }

  lemma SeatsSnoc(ps: seq<Player>, p: Player)
    ensures Seats(ps + [p]) == Seats(ps) + [p.View()]
  {
  }

  // ---------------------------------------------------------------------------
  // The new deck: `crearMazo`

  /** `xs` written `n` times over. */
  function Repeat(xs: seq<Card>, n: nat): (r: seq<Card>)
    ensures |r| == n * |xs|
  {
    if n == 0 then [] else Repeat(xs, n - 1) + xs
  }

  /** The groups `crearMazo` adds: four single cards, the pair of its first
      loop, the three wildcards, the eight cards of its second loop and the
      four organs of its third. */
  function Singles(): seq<Card> { [TotalTransplant, AllDiscard, Infection, Infection] }
  function Pair(): seq<Card> { [OrganTheft, SingleTransplant] }
  function Wildcards(): seq<Card> { [Organ(Wildcard), Virus(Wildcard), Medicine(Wildcard)] }
  function TypedViruses(): seq<Card> { [Virus(Bone), Virus(Heart), Virus(Brain), Virus(Stomach)] }
  function TypedMedicines(): seq<Card> { [Medicine(Bone), Medicine(Heart), Medicine(Brain), Medicine(Stomach)] }
  function Typed(): seq<Card> { TypedViruses() + TypedMedicines() }
  function TypedOrgans(): seq<Card> { [Organ(Bone), Organ(Heart), Organ(Brain), Organ(Stomach)] }

  /** The deck in the order `crearMazo` builds it, before the shuffle: the 65
      cards that `invariantes` expects. */
  function NewDeck(): (d: seq<Card>)
    ensures |d| == 65
  {
    Singles() + Repeat(Pair(), 3) + Wildcards() + Repeat(Typed(), 4) + Repeat(TypedOrgans(), 5)
  }

  /** Writing a group `n` times over multiplies the copies of each card by `n`. */
  lemma {:induction false} RepeatBag(xs: seq<Card>, n: nat, c: Card)
    ensures multiset(Repeat(xs, n))[c] == n * multiset(xs)[c]
  {
    if n > 0 {
      RepeatBag(xs, n - 1, c);
      assert Repeat(xs, n) == Repeat(xs, n - 1) + xs;
      var k := multiset(xs)[c];
      assert multiset(Repeat(xs, n))[c] == (n - 1) * k + k;
    }
  }

  /** The copies of `c` in each group of the deck. */
  function InSingles(c: Card): nat
  {
    if c == Infection then 2 else if c == TotalTransplant || c == AllDiscard then 1 else 0
  }

  function InTyped(c: Card): nat
  {
    if (c.Virus? || c.Medicine?) && c.tag != Wildcard then 1 else 0
  }

  lemma SinglesCount(c: Card)
    ensures multiset(Singles())[c] == InSingles(c)
  {
    assert Singles() == [TotalTransplant] + [AllDiscard] + [Infection] + [Infection];
  }

  lemma PairCount(c: Card)
    ensures multiset(Pair())[c] == if c == OrganTheft || c == SingleTransplant then 1 else 0
  {
    assert Pair() == [OrganTheft] + [SingleTransplant];
  }

  lemma WildcardsCount(c: Card)
    ensures multiset(Wildcards())[c] == if (c.Organ? || c.Virus? || c.Medicine?) && c.tag == Wildcard then 1 else 0
  {
    assert Wildcards() == [Organ(Wildcard)] + [Virus(Wildcard)] + [Medicine(Wildcard)];
  }

  lemma TypedVirusesCount(c: Card)
    ensures multiset(TypedViruses())[c] == if c.Virus? && c.tag != Wildcard then 1 else 0
  {
    assert TypedViruses() == [Virus(Bone)] + [Virus(Heart)] + [Virus(Brain)] + [Virus(Stomach)];
  }

  lemma TypedMedicinesCount(c: Card)
    ensures multiset(TypedMedicines())[c] == if c.Medicine? && c.tag != Wildcard then 1 else 0
  {
    assert TypedMedicines() == [Medicine(Bone)] + [Medicine(Heart)] + [Medicine(Brain)] + [Medicine(Stomach)];
  }

  lemma TypedCount(c: Card)
    ensures multiset(Typed())[c] == InTyped(c)
  {
    TypedVirusesCount(c);
    TypedMedicinesCount(c);
  }

  lemma TypedOrgansCount(c: Card)
    ensures multiset(TypedOrgans())[c] == if c.Organ? && c.tag != Wildcard then 1 else 0
  {
    assert TypedOrgans() == [Organ(Bone)] + [Organ(Heart)] + [Organ(Brain)] + [Organ(Stomach)];
  }

  lemma NewDeckCount(c: Card)
    ensures multiset(NewDeck())[c] == multiset(Singles())[c] + 3 * multiset(Pair())[c] + multiset(Wildcards())[c]
      + 4 * multiset(Typed())[c] + 5 * multiset(TypedOrgans())[c]
  {
    RepeatBag(Pair(), 3, c);
    RepeatBag(Typed(), 4, c);
    RepeatBag(TypedOrgans(), 5, c);
  }

  /** The composition of the new deck: one total transplant, one all-discard,
      two infections, three thefts, three single transplants, one wildcard of
      each category, four of each typed virus and medicine and five of each
      typed organ; the hidden card is never dealt. */
  lemma DeckComposition(c: Card)
    ensures var n := multiset(NewDeck())[c];
      && (c == TotalTransplant || c == AllDiscard ==> n == 1)
      && (c == Infection ==> n == 2)
      && (c == OrganTheft || c == SingleTransplant ==> n == 3)
      && ((c.Organ? || c.Virus? || c.Medicine?) && c.tag == Wildcard ==> n == 1)
      && ((c.Virus? || c.Medicine?) && c.tag != Wildcard ==> n == 4)
      && (c.Organ? && c.tag != Wildcard ==> n == 5)
      && (c == Hidden ==> n == 0)
  {
    NewDeckCount(c);
    SinglesCount(c);
    PairCount(c);
    WildcardsCount(c);
    TypedCount(c);
    TypedOrgansCount(c);
  }

  // ---------------------------------------------------------------------------
  // Drawing and joining

  /** Three draws in a row lose no card and invent none. */
  lemma ThreeDraws(d0: seq<Card>, z0: seq<Card>, a: Card, d1: seq<Card>, z1: seq<Card>, b: Card,
                   d2: seq<Card>, z2: seq<Card>, c: Card, d3: seq<Card>, z3: seq<Card>)
    requires Drew(d0, z0, a, d1, z1) && Drew(d1, z1, b, d2, z2) && Drew(d2, z2, c, d3, z3)
    ensures multiset(d3) + multiset(z3) + multiset([a, b, c]) == multiset(d0) + multiset(z0)
  {
    DrewKeepsCards(d0, z0, a, d1, z1);
    DrewKeepsCards(d1, z1, b, d2, z2);
    DrewKeepsCards(d2, z2, c, d3, z3);
    TakeThree(multiset(d0) + multiset(z0), multiset(d1) + multiset(z1), multiset(d2) + multiset(z2), multiset(d3) + multiset(z3), a, b, c);
  }

  lemma TakeThree(m0: multiset<Card>, m1: multiset<Card>, m2: multiset<Card>, m3: multiset<Card>, a: Card, b: Card, c: Card)
    requires m1 + multiset{a} == m0 && m2 + multiset{b} == m1 && m3 + multiset{c} == m2
    ensures m3 + multiset([a, b, c]) == m0
  {
    forall x ensures (m3 + multiset([a, b, c]))[x] == m0[x] {
      assert multiset([a, b, c])[x] == multiset{a}[x] + multiset{b}[x] + multiset{c}[x];
      assert (m1 + multiset{a})[x] == m0[x] && (m2 + multiset{b})[x] == m1[x] && (m3 + multiset{c})[x] == m2[x];
    }
  }

  /** `join`: refused once the match has started or when the name is taken.
      Otherwise three cards are drawn and the newcomer sits last with them in
      hand and nothing on the table. When fewer than three cards can be drawn
      the last draw throws: nobody joins, and the cards drawn until then are
      gone, with the deck and the discard pile both empty. */
  ghost predicate Joined(g: GameState, auth: Auth, r: Result<()>, g': GameState)
  {
    if g.current >= 0 then r == Err(AlreadyStarted) && g' == g
    else if FindSeat(g.seats, auth.playerId).Some? then r == Err(PlayerExists) && g' == g
    else if |g.deck| + |g.discard| < 3 then r == Err(OutOfCards) && g' == g.(deck := [], discard := [])
    else
      && r == Ok(())
      && |g'.seats| == |g.seats| + 1
      && var hand := g'.seats[|g.seats|].hand;
      && DrewThree(g.deck, g.discard, hand, g'.deck, g'.discard)
      && g'.seats == g.seats + [Seat(auth, hand, [])]
      && g'.current == g.current && g'.ended == g.ended
  }

  /** `coge3cartas`: the hand is three cards, each drawn by `cogeCarta` from
      the piles the previous draw left. */
  ghost predicate DrewThree(d0: seq<Card>, z0: seq<Card>, hand: seq<Card>, d3: seq<Card>, z3: seq<Card>)
  {
    && |hand| == 3
    && exists d1: seq<Card>, z1: seq<Card>, d2: seq<Card>, z2: seq<Card> ::
         Drew(d0, z0, hand[0], d1, z1) && Drew(d1, z1, hand[1], d2, z2) && Drew(d2, z2, hand[2], d3, z3)
  }

  /** Three chained draws make a `DrewThree` hand. */
  lemma ChainIsDrewThree(d0: seq<Card>, z0: seq<Card>, a: Card, d1: seq<Card>, z1: seq<Card>, b: Card,
                         d2: seq<Card>, z2: seq<Card>, c: Card, d3: seq<Card>, z3: seq<Card>)
    requires Drew(d0, z0, a, d1, z1) && Drew(d1, z1, b, d2, z2) && Drew(d2, z2, c, d3, z3)
    ensures DrewThree(d0, z0, [a, b, c], d3, z3)
  {
    var hand := [a, b, c];
    assert Drew(d0, z0, hand[0], d1, z1) && Drew(d1, z1, hand[1], d2, z2) && Drew(d2, z2, hand[2], d3, z3);
  }

  /** Three draws lose no card and invent none; when the deck holds three
      cards they are its first three, and the discard pile is left alone. */
  lemma DrewThreeKeeps(d0: seq<Card>, z0: seq<Card>, hand: seq<Card>, d3: seq<Card>, z3: seq<Card>)
    requires DrewThree(d0, z0, hand, d3, z3)
    ensures multiset(d3) + multiset(z3) + multiset(hand) == multiset(d0) + multiset(z0)
    ensures |d0| >= 3 ==> hand == d0[..3] && d3 == d0[3..] && z3 == z0
  {
    var d1, z1, d2, z2 :| Drew(d0, z0, hand[0], d1, z1) && Drew(d1, z1, hand[1], d2, z2) && Drew(d2, z2, hand[2], d3, z3);
    assert hand == [hand[0], hand[1], hand[2]];
    ThreeDraws(d0, z0, hand[0], d1, z1, hand[1], d2, z2, hand[2], d3, z3);
    if |d0| >= 3 {
      assert d1 == d0[1..] && d2 == d0[2..] && d3 == d0[3..];
    }
  }

  /** A newcomer with a fresh name and an empty table keeps the shape
      invariant. */
  lemma NewcomerKeeps(g: GameState, s: Seat, g': GameState)
    requires WellFormed(g) && FindSeat(g.seats, s.auth.playerId).None? && s.stacks == []
    requires g'.seats == g.seats + [s] && g'.current == g.current
    ensures WellFormed(g')
  {
    assert forall k :: 0 <= k < |g.seats| ==> g'.seats[k] == g.seats[k];
  }

  /** The newcomer's hand is exactly what left the piles. */
  lemma NewcomerBag(g: GameState, s: Seat, g': GameState)
    requires g'.seats == g.seats + [s] && s.stacks == []
    requires multiset(g'.deck) + multiset(g'.discard) + multiset(s.hand) == multiset(g.deck) + multiset(g.discard)
    ensures Bag(g') == Bag(g)
  {
    SeatsBagSnoc(g.seats, s);
    assert SeatBag(s) == multiset(s.hand);
    forall x ensures Bag(g')[x] == Bag(g)[x] {
      assert (multiset(g'.deck) + multiset(g'.discard) + multiset(s.hand))[x] == (multiset(g.deck) + multiset(g.discard))[x];
    }
  }

  /** Joining keeps the shape invariant; a newcomer brings the three cards
      that left the piles, a refusal changes nothing, and a join that runs out
      of cards loses every card that was left in the piles. */
  lemma JoinKeeps(g: GameState, auth: Auth, r: Result<()>, g': GameState)
    requires WellFormed(g) && Joined(g, auth, r, g')
    ensures WellFormed(g')
    ensures r.Ok? ==> Bag(g') == Bag(g) && |g'.seats| == |g.seats| + 1 && g'.seats[|g.seats|].auth == auth
    ensures r == Err(OutOfCards) ==> Bag(g') + multiset(g.deck) + multiset(g.discard) == Bag(g) && g'.seats == g.seats
    ensures r.Err? && r != Err(OutOfCards) ==> g' == g
  {
    if r.Ok? {
      var s := Seat(auth, g'.seats[|g.seats|].hand, []);
      DrewThreeKeeps(g.deck, g.discard, s.hand, g'.deck, g'.discard);
      NewcomerKeeps(g, s, g');
      NewcomerBag(g, s, g');
    }
  }

  // ---------------------------------------------------------------------------
  // Card effects on the match object

  /** A card effect as the methods report it: the failure and no change, or
      whether the card is to be discarded and the state the rules give. */
  predicate Outcome(e: Result<Applied>, r: Result<bool>, g: GameState, g': GameState)
  {
    match e
    case Err(x) => r == Err(x) && g' == g
    case Ok(a) => r == Ok(a.discardIt) && g' == a.after
  }

  /** What `getStatus` reports: whether the match is over, and each player as
      the viewer sees it. */
  datatype GameStatus = GameStatus(ended: bool, players: seq<PlayerStatus>)

  /** When only the player at `i` is seen differently from the snapshot
      `before`, the match is that snapshot with the seat at `i` replaced. */
  lemma Reseated(game: VirusGame, before: GameState, i: nat)
    requires |game.players| == |before.seats| && i < |game.players|
    requires forall k :: 0 <= k < |game.players| && k != i ==> game.players[k].View() == before.seats[k]
    ensures game.State() == before.(deck := game.mazo, discard := game.ozam,
      seats := before.seats[i := game.players[i].View()],
      current := game.currentPlayer, ended := game.finDeLaPartida)
  {
  }

  /** The same with two seats replaced. */
  lemma Reseated2(game: VirusGame, before: GameState, i: nat, j: nat)
    requires |game.players| == |before.seats| && i < |game.players| && j < |game.players|
    requires forall k :: 0 <= k < |game.players| && k != i && k != j ==> game.players[k].View() == before.seats[k]
    ensures game.State() == before.(deck := game.mazo, discard := game.ozam,
      seats := before.seats[i := game.players[i].View()][j := game.players[j].View()],
      current := game.currentPlayer, ended := game.finDeLaPartida)
  {
  }

  /** `players.stream().map(e -> e.getStatus(auth, isCurrentPlayer(e)))`:
      the turn is by identity with the player object at the pointer. */
  function Statuses(ps: seq<Player>, viewer: Auth, turn: Option<Player>): (r: seq<PlayerStatus>)
    reads ps
    ensures |r| == |ps|
    ensures forall k :: 0 <= k < |ps| ==> r[k] == ps[k].Status(viewer, turn == Some(ps[k]))
  {
    if ps == [] then [] else [ps[0].Status(viewer, turn == Some(ps[0]))] + Statuses(ps[1..], viewer, turn)
  }

  /** The guards of `aOtroTransplanta`, in its order; on success the
      positions of the actor's and the target's stacks. */
  method TransplantChecks(g: GameState, i: nat, j: nat, mine: Card, theirs: Card) returns (c: Result<(nat, nat)>)
    requires i < |g.seats| && j < |g.seats| && i != j
    requires NonEmptyStacks(g.seats[i].stacks) && NonEmptyStacks(g.seats[j].stacks)
    ensures c.Err? ==> Transplant(g, i, j, mine, theirs) == Err(c.error)
    ensures c.Ok? ==> var (ka, kb) := c.value;
      && SingleTransplant in g.seats[i].hand
      && ka < |g.seats[i].stacks| && kb < |g.seats[j].stacks|
      && (forall m :: 0 <= m < ka ==> g.seats[i].stacks[m][0] != g.seats[i].stacks[ka][0])
      && (forall m :: 0 <= m < kb ==> g.seats[j].stacks[m][0] != g.seats[j].stacks[kb][0])
      && Transplant(g, i, j, mine, theirs) == Ok(Applied(false, Transplanted(g, i, j, ka, kb)))
  {
    var si := g.seats[i].stacks;
    var sj := g.seats[j].stacks;
    if SingleTransplant !in g.seats[i].hand {
      return Err(NeedsTransplantCard);
    }
    if !(FindStack(sj, mine).Err? || mine == theirs) {
      return Err(TargetHasOrgan);
    }
    if !(FindStack(si, theirs).Err? || mine == theirs) {
      return Err(ActorHasOrgan);
    }
    var fa := FindStack(si, mine);
    if fa.Err? {
      return Err(ActorLacksOrgan);
    }
    var fb := FindStack(sj, theirs);
    if fb.Err? {
      return Err(TargetLacksOrgan);
    }
    if IsImmune(sj[fb.value]) {
      return Err(ImmuneTarget);
    }
    c := Ok((fa.value, fb.value));
  }

  /** The guards of `aplayer` and its `findPlayer`, in the source's order;
      on success the actor and the target. Whether the card is held is
      checked later, when it leaves the hand. */
  method LayChecks(g: GameState, auth: Auth, card: Card, name: string) returns (c: Result<(nat, nat)>)
    requires WellFormed(g)
    ensures c.Err? ==> LayCheck(g, auth, card, name) == Err(c.error)
    ensures c.Ok? ==> c.value.0 < |g.seats| && c.value.1 < |g.seats|
    ensures c.Ok? ==> (IsOrgan(card) || card == TotalTransplant) && (IsOrgan(card) ==> card !in OrgansOf(g.seats[c.value.0].stacks))
    ensures c.Ok? ==> LayCheck(g, auth, card, name) == if card in g.seats[c.value.0].hand then Ok(c.value) else Err(CardNotInHand)
  {
    var a := Actor(g, auth);
    if a.Err? {
      return Err(a.error);
    }
    var i := a.value;
    if !(IsOrgan(card) || card == TotalTransplant) {
      return Err(NotPlayableOnPlayer);
    }
    if IsOrgan(card) && g.seats[i].auth.playerId != name {
      return Err(OrganOnlyToSelf);
    }
    if IsOrgan(card) && card in OrgansOf(g.seats[i].stacks) {
      return Err(OrganAlreadyHeld);
    }
    var f := FindSeat(g.seats, name);
    if f.None? {
      return Err(UnknownPlayer);
    }
    c := Ok((i, f.value));
  }

  /** The guards of `acarta` and its `findPlayer`, in the source's order. */
  method CardChecks(g: GameState, auth: Auth, target: Card, name: string) returns (c: Result<(nat, nat)>)
    ensures c == CardCheck(g, auth, target, name)
  {
    var a := Actor(g, auth);
    if a.Err? {
      return Err(a.error);
    }
    if !IsOrgan(target) {
      return Err(TargetNotOrgan);
    }
    var f := FindSeat(g.seats, name);
    if f.None? {
      return Err(UnknownPlayer);
    }
    c := Ok((a.value, f.value));
  }

  class VirusGame {
    const password: string
    var players: seq<Player>
    var mazo: seq<Card>
    var ozam: seq<Card>
    var finDeLaPartida: bool
    var currentPlayer: int

    /** Every player object is seated once. */
    predicate Distinct()
      reads this
    {
      forall j, k :: 0 <= j < k < |players| ==> players[j] != players[k]
    }

    /** The match as a value. */
    function State(): GameState
      reads this, players
    {
      GameState(mazo, ozam, Seats(players), currentPlayer, finDeLaPartida)
    }

    /** The class invariant: distinct player objects and a well-formed match. */
    predicate Valid()
      reads this, players
    {
      Distinct() && WellFormed(State())
    }

    /** `crearMazo`: 65 cards in four groups, then shuffled. */
    static method CreateDeck() returns (m: seq<Card>)
      ensures multiset(m) == multiset(NewDeck()) && |m| == 65
    {
      m := Singles();
      for i := 0 to 3
        invariant m == Singles() + Repeat(Pair(), i)
      {
        m := m + [OrganTheft, SingleTransplant];
        assert Repeat(Pair(), i + 1) == Repeat(Pair(), i) + Pair();
      }
      m := m + Wildcards();
      ghost var front := m;
      for i := 0 to 4
        invariant m == front + Repeat(Typed(), i)
      {
        ghost var m0 := m;
        m := m + [Virus(Bone), Virus(Heart), Virus(Brain), Virus(Stomach)];
        m := m + [Medicine(Bone), Medicine(Heart), Medicine(Brain), Medicine(Stomach)];
        assert m == m0 + TypedViruses() + TypedMedicines();
        assert Repeat(Typed(), i + 1) == Repeat(Typed(), i) + Typed();
      }
      front := m;
      for i := 0 to 5
        invariant m == front + Repeat(TypedOrgans(), i)
      {
        m := m + [Organ(Bone), Organ(Heart), Organ(Brain), Organ(Stomach)];
        assert Repeat(TypedOrgans(), i + 1) == Repeat(TypedOrgans(), i) + TypedOrgans();
      }
      assert m == NewDeck();
      m := Shuffle(m);
      assert |m| == |multiset(m)|;
    }

    /** A new match: a fresh deck, an empty discard pile, nobody seated, not
        started and not over. */
    constructor(password: string)
      ensures Valid() && this.password == password
      ensures multiset(mazo) == multiset(NewDeck()) && |mazo| == 65
      ensures ozam == [] && players == [] && currentPlayer == -1 && !finDeLaPartida
      ensures CardCount(State()) == 65
    {
      this.password := password;
      players := [];
      var m := CreateDeck();
      mazo := m;
      ozam := [];
      finDeLaPartida := false;
      currentPlayer := -1;
      new;
      CardCountIsBagSize(State());
    }

    /** `cogeCarta`: the first deck card, after moving the shuffled discard
        pile into an empty deck; throws when both are empty. */
    method Draw() returns (r: Result<Card>)
      modifies this
      ensures players == old(players) && currentPlayer == old(currentPlayer) && finDeLaPartida == old(finDeLaPartida)
      ensures r.Err? <==> old(mazo) == [] && old(ozam) == []
      ensures r.Err? ==> r.error == OutOfCards && mazo == old(mazo) && ozam == old(ozam)
      ensures r.Ok? ==> Drew(old(mazo), old(ozam), r.value, mazo, ozam)
      ensures State() == old(State()).(deck := mazo, discard := ozam)
    {
      if mazo == [] {
        if ozam == [] {
          return Err(OutOfCards);
        }
        mazo := mazo + ozam;
        ozam := [];
        mazo := Shuffle(mazo);
        assert multiset(mazo) == multiset(old(ozam));
        assert mazo == [mazo[0]] + mazo[1..];
      }
      r := Ok(mazo[0]);
      mazo := mazo[1..];
    }

    /** `coge3cartas`: three draws in a row; the third of them throws when
        fewer than three cards are left, with both piles then empty. */
    method DrawThree() returns (r: Result<seq<Card>>)
      modifies this
      ensures players == old(players) && currentPlayer == old(currentPlayer) && finDeLaPartida == old(finDeLaPartida)
      ensures r.Ok? <==> |old(mazo)| + |old(ozam)| >= 3
      ensures r.Ok? ==> |r.value| == 3
      ensures r.Ok? ==> DrewThree(old(mazo), old(ozam), r.value, mazo, ozam)
      ensures r.Ok? ==> multiset(mazo) + multiset(ozam) + multiset(r.value) == multiset(old(mazo)) + multiset(old(ozam))
      ensures r.Err? ==> r.error == OutOfCards && mazo == [] && ozam == []
    {
      ghost var d0, z0 := mazo, ozam;
      var a := Draw();
      if a.Err? {
        return Err(a.error);
      }
      ghost var d1, z1 := mazo, ozam;
      DrewKeepsCards(d0, z0, a.value, d1, z1);
      var b := Draw();
      if b.Err? {
        return Err(b.error);
      }
      ghost var d2, z2 := mazo, ozam;
      DrewKeepsCards(d1, z1, b.value, d2, z2);
      var c := Draw();
      if c.Err? {
        return Err(c.error);
      }
      DrewKeepsCards(d2, z2, c.value, mazo, ozam);
      r := Ok([a.value, b.value, c.value]);
      ChainIsDrewThree(d0, z0, a.value, d1, z1, b.value, d2, z2, c.value, mazo, ozam);
      DrewThreeKeeps(d0, z0, r.value, mazo, ozam);
    }

    /** `players.add(new Player(auth, cartas))`: a newcomer sits last. */
    method SitDown(auth: Auth, cartas: seq<Card>)
      requires Distinct()
      modifies this
      ensures Distinct()
      ensures State() == old(State()).(seats := old(State()).seats + [Seat(auth, cartas, [])])
    {
      var p := new Player(auth, cartas);
      SeatsSnoc(players, p);
      players := players + [p];
    }

    /** `join`: as `Joined` says. */
    method Join(auth: Auth) returns (r: Result<()>)
      requires Valid()
      modifies this
      ensures Valid()
      ensures Joined(old(State()), auth, r, State())
    {
      if currentPlayer >= 0 {
        return Err(AlreadyStarted);
      }
      if FindSeat(Seats(players), auth.playerId).Some? {
        return Err(PlayerExists);
      }
      var hand := DrawThree();
      if hand.Err? {
        return Err(hand.error);
      }
      SitDown(auth, hand.value);
      r := Ok(());
      JoinKeeps(old(State()), auth, r, State());
    }

    /** `start`: only the administrator, only once, and only with someone
        seated; the first player is `pick`, the index `Math.random` would
        choose. */
    method Start(pw: string, pick: nat) returns (r: Result<()>)
      requires Valid() && (|players| > 0 ==> pick < |players|)
      modifies this
      ensures Valid() && players == old(players)
      ensures pw != password ==> r == Err(NotAdmin)
      ensures pw == password && old(currentPlayer) >= 0 ==> r == Err(AlreadyStarted)
      ensures pw == password && old(currentPlayer) < 0 && |players| == 0 ==> r == Err(NoPlayers)
      ensures r.Ok? <==> pw == password && old(currentPlayer) < 0 && |players| > 0
      ensures r.Err? ==> State() == old(State())
      ensures r.Ok? ==> State() == old(State()).(current := pick) && 0 <= currentPlayer < |players|
    {
      if password != pw {
        return Err(NotAdmin);
      }
      if currentPlayer >= 0 {
        return Err(AlreadyStarted);
      }
      if |players| == 0 {
        return Err(NoPlayers);
      }
      currentPlayer := pick;
      return Ok(());
    }

    /** `ganaOrobayturno` for the player at `i`. */
    method HandOff(i: nat) returns (r: Result<Turn>)
      requires Distinct() && i < |players|
      modifies this, players[i]
      ensures players == old(players)
      ensures HandedOff(old(State()), i, r, State())
    {
      if IsWinning(players[i].jugada) {
        finDeLaPartida := true;
        return Ok(Won);
      }
      var c := Draw();
      if c.Err? {
        return Err(c.error);
      }
      AddToHand(i, c.value);
      currentPlayer := (currentPlayer + 1) % |players|;
      r := Ok(Passed(c.value));
    }

    /** `p.getMano().add(c)` for the player at `i`. */
    method AddToHand(i: nat, c: Card)
      requires Distinct() && i < |players|
      modifies players[i]
      ensures State() == WithHand(old(State()), i, old(State()).seats[i].hand + [c])
    {
      players[i].mano := players[i].mano + [c];
      Reseated(this, old(State()), i);
    }

    /** The discarding half of `tirar`: one copy of a held card leaves the
        hand and goes on top of the discard pile. */
    method DiscardCard(i: nat, c: Card)
      requires Distinct() && i < |players| && c in players[i].mano
      modifies this, players[i]
      ensures players == old(players)
      ensures State() == Discarded(old(State()), i, c)
    {
      var q := players[i].RemoveFromHand(c);
      ozam := ozam + [c];
      Reseated(this, old(State()), i);
    }

    /** `tirar`: discard a held card, or pass with fewer than three. */
    method Toss(auth: Auth, card: Option<Card>) returns (r: Result<Turn>)
      requires Valid()
      modifies this, players
      ensures Valid() && players == old(players)
      ensures Moves.Toss(old(State()), auth, card, r, State())
    {
      var a := Actor(State(), auth);
      if a.Err? {
        return Err(a.error);
      }
      var i := a.value;
      if !((card.Some? && card.value in players[i].mano) || (card.None? && |players[i].mano| < 3)) {
        return Err(MustPlayOrDiscard);
      }
      r := DiscardAndHandOff(i, card);
    }

    /** The effect of `tirar` once its guard passed: the card, if any, goes
        to the discard pile, and the turn is handed off. */
    method DiscardAndHandOff(i: nat, card: Option<Card>) returns (r: Result<Turn>)
      requires Valid() && i < |players| && (card.Some? ==> card.value in players[i].mano)
      modifies this, players[i]
      ensures Valid() && players == old(players)
      ensures HandedOff(if card.Some? then Discarded(old(State()), i, card.value) else old(State()), i, r, State())
    {
      if card.Some? {
        DiscardCard(i, card.value);
        DiscardedKeeps(old(State()), i, card.value);
      }
      ghost var h := State();
      r := HandOff(i);
      HandOffKeeps(h, i, r, State());
    }

    // -------------------------------------------------------------------------
    // Card effects

    /** `jugada.add` / `jugada.remove` on the stack at `k` of the player at
        `j`, the list object changed in place. */
    method SetStack(j: nat, k: nat, t: Stack)
      requires Distinct() && j < |players| && k < |players[j].jugada|
      modifies players[j]
      ensures State() == WithStacks(old(State()), j, old(State()).seats[j].stacks[k := t])
    {
      players[j].jugada := players[j].jugada[k := t];
      Reseated(this, old(State()), j);
    }

    /** `getJugada().remove(jugada)`: the first stack equal to the one at `k`
        leaves the table; on a table whose organs differ that is the stack at
        `k` itself. */
    method DropStack(j: nat, k: nat)
      requires Distinct() && j < |players| && k < |players[j].jugada| && NonEmptyStacks(players[j].jugada)
      requires forall m :: 0 <= m < k ==> players[j].jugada[m][0] != players[j].jugada[k][0]
      modifies players[j]
      ensures State() == WithStacks(old(State()), j, RemoveAt(old(State()).seats[j].stacks, k))
    {
      assert forall m :: 0 <= m < k ==> players[j].jugada[m] != players[j].jugada[k];
      RemoveFirstAt(players[j].jugada, k);
      players[j].jugada := RemoveFirst(players[j].jugada, players[j].jugada[k]);
      Reseated(this, old(State()), j);
    }

    /** `aOtroUnVirus` on the player at `j`: the stack lookup and the two
        guards, then the virus meets the stack. */
    method OnVirus(j: nat, virus: Card, organ: Card) returns (r: Result<bool>)
      requires Distinct() && j < |players| && NonEmptyStacks(players[j].jugada)
      modifies this, players[j]
      ensures players == old(players)
      ensures Outcome(PlaceVirus(old(State()), j, virus, organ), r, old(State()), State())
    {
      var f := FindStack(players[j].jugada, organ);
      if f.Err? {
        return Err(f.error);
      }
      if !Admits(organ, virus) {
        return Err(NotAdmitted);
      }
      if IsImmune(players[j].jugada[f.value]) {
        return Err(ImmuneTarget);
      }
      var tirala := LandVirus(j, f.value, virus);
      r := Ok(tirala);
    }

    /** The loop of `aOtroUnVirus`, over a copy of the stack: the first
        medicine or virus decides, and a stack with neither takes the virus. */
    method LandVirus(j: nat, k: nat, virus: Card) returns (tirala: bool)
      requires Distinct() && j < |players| && k < |players[j].jugada| && NonEmptyStacks(players[j].jugada)
      requires forall m :: 0 <= m < k ==> players[j].jugada[m][0] != players[j].jugada[k][0]
      modifies this, players[j]
      ensures players == old(players)
      ensures Applied(tirala, State()) == Landed(old(State()), j, k, virus)
    {
      ghost var g := State();
      var s := players[j].jugada[k];
      var n := ScanForHit(s);
      LandedAt(g, j, k, virus, n);
      if n == |s| {
        SetStack(j, k, s + [virus]);
        return false;
      }
      if IsMedicine(s[n]) {
        Discard([s[n]]);
        SetStack(j, k, RemoveFirst(s, s[n]));
      } else {
        Discard(s);
        DropStack(j, k);
      }
      tirala := true;
    }

    /** `aSuCarta` on the actor at `i`: only a medicine, only one the named
        organ takes, only on an organ on the table; then the medicine meets
        the stack. */
    method OnOwnCard(i: nat, medicine: Card, organ: Card) returns (r: Result<bool>)
      requires Distinct() && i < |players| && NonEmptyStacks(players[i].jugada)
      modifies players[i]
      ensures Outcome(Medicate(old(State()), i, medicine, organ), r, old(State()), State())
    {
      if !IsMedicine(medicine) {
        return Err(OnlyMedicineOnSelf);
      }
      if !Admits(organ, medicine) {
        return Err(MedicineDoesNotFit);
      }
      var f := FindStack(players[i].jugada, organ);
      if f.Err? {
        return Err(f.error);
      }
      r := TreatStack(i, f.value, organ, medicine);
    }

    /** The loop of `aSuCarta` over the stack: the first virus the medicine
        cures leaves it; otherwise a virus left on it, or immunity, refuses
        the medicine, and else the medicine joins the stack. */
    method TreatStack(i: nat, k: nat, organ: Card, medicine: Card) returns (r: Result<bool>)
      requires Distinct() && i < |players| && k < |players[i].jugada|
      modifies players[i]
      ensures Outcome(Treated(old(State()), i, k, organ, medicine), r, old(State()), State())
    {
      ghost var g := State();
      var s := players[i].jugada[k];
      var n := ScanForCure(s, organ, medicine);
      TreatedAt(g, i, k, organ, medicine, n);
      if n < |s| {
        SetStack(i, k, RemoveFirst(s, s[n]));
        return Ok(true);
      }
      if exists c | c in s :: IsVirus(c) {
        return Err(IncurableVirus);
      }
      if IsImmune(s) {
        return Err(AlreadyImmune);
      }
      SetStack(i, k, s + [medicine]);
      r := Ok(false);
    }

    /** `aOtroRobar`: the target's stack of that organ, unless it is immune
        or the actor holds that organ already, moves to the actor. */
    method StealMove(i: nat, j: nat, organ: Card) returns (r: Result<bool>)
      requires Distinct() && i < |players| && j < |players| && i != j
      requires NonEmptyStacks(players[i].jugada) && NonEmptyStacks(players[j].jugada)
      modifies players[i], players[j]
      ensures Outcome(Steal(old(State()), i, j, organ), r, old(State()), State())
    {
      var f := FindStack(players[j].jugada, organ);
      if f.Err? {
        return Err(TargetLacksOrgan);
      }
      if IsImmune(players[j].jugada[f.value]) {
        return Err(ImmuneTarget);
      }
      if FindStack(players[i].jugada, organ).Ok? {
        return Err(ActorHasOrgan);
      }
      MoveStack(i, j, f.value);
      r := Ok(true);
    }

    /** `pb.getJugada().remove(jugadaB)` then `pa.getJugada().add(jugadaB)`. */
    method MoveStack(i: nat, j: nat, k: nat)
      requires Distinct() && i < |players| && j < |players| && i != j
      requires k < |players[j].jugada| && NonEmptyStacks(players[j].jugada)
      requires forall m :: 0 <= m < k ==> players[j].jugada[m][0] != players[j].jugada[k][0]
      modifies players[i], players[j]
      ensures State() == Stolen(old(State()), i, j, k)
    {
      ghost var g := State();
      var s := players[j].jugada[k];
      DropStack(j, k);
      assert State().seats[i] == g.seats[i];
      AppendStack(i, s);
    }

    /** `getJugada().add(t)` on the player at `i`. */
    method AppendStack(i: nat, t: Stack)
      requires Distinct() && i < |players|
      modifies players[i]
      ensures State() == WithStacks(old(State()), i, old(State()).seats[i].stacks + [t])
    {
      players[i].jugada := players[i].jugada + [t];
      Reseated(this, old(State()), i);
    }

    /** `aOtroTransplanta`: the guards in the source's order, then the
        transplant card goes from the hand to the discard pile and the two
        stacks change owners. */
    method TransplantMove(i: nat, j: nat, mine: Card, theirs: Card) returns (r: Result<bool>)
      requires Distinct() && i < |players| && j < |players| && i != j
      requires NonEmptyStacks(players[i].jugada) && NonEmptyStacks(players[j].jugada)
      modifies this, players[i], players[j]
      ensures players == old(players)
      ensures Outcome(Transplant(old(State()), i, j, mine, theirs), r, old(State()), State())
    {
      ghost var g := State();
      assert g.seats[i] == players[i].View() && g.seats[j] == players[j].View();
      var c := TransplantChecks(State(), i, j, mine, theirs);
      if c.Err? {
        return Err(c.error);
      }
      DoTransplant(i, j, c.value.0, c.value.1);
      r := Ok(false);
    }

    /** The transplant once its checks passed: the card goes to the discard
        pile and the two stacks change tables. */
    method DoTransplant(i: nat, j: nat, ka: nat, kb: nat)
      requires Distinct() && i < |players| && j < |players| && i != j
      requires SingleTransplant in players[i].mano
      requires ka < |players[i].jugada| && NonEmptyStacks(players[i].jugada)
      requires kb < |players[j].jugada| && NonEmptyStacks(players[j].jugada)
      requires forall m :: 0 <= m < ka ==> players[i].jugada[m][0] != players[i].jugada[ka][0]
      requires forall m :: 0 <= m < kb ==> players[j].jugada[m][0] != players[j].jugada[kb][0]
      modifies this, players[i], players[j]
      ensures players == old(players)
      ensures State() == Transplanted(old(State()), i, j, ka, kb)
    {
      DiscardCard(i, SingleTransplant);
      Exchange(i, j, ka, kb);
    }

    /** The four list operations of the exchange: each stack leaves its
        table and joins the end of the other. */
    method Exchange(i: nat, j: nat, ka: nat, kb: nat)
      requires Distinct() && i < |players| && j < |players| && i != j
      requires ka < |players[i].jugada| && NonEmptyStacks(players[i].jugada)
      requires kb < |players[j].jugada| && NonEmptyStacks(players[j].jugada)
      requires forall m :: 0 <= m < ka ==> players[i].jugada[m][0] != players[i].jugada[ka][0]
      requires forall m :: 0 <= m < kb ==> players[j].jugada[m][0] != players[j].jugada[kb][0]
      modifies players[i], players[j]
      ensures var g := old(State());
        State() == WithStacks(WithStacks(g, i, RemoveAt(g.seats[i].stacks, ka) + [g.seats[j].stacks[kb]]), j,
                              RemoveAt(g.seats[j].stacks, kb) + [g.seats[i].stacks[ka]])
    {
      ghost var g := State();
      var sa := players[i].jugada[ka];
      var sb := players[j].jugada[kb];
      ReplaceStack(i, ka, sb);
      assert State().seats[j] == g.seats[j];
      ReplaceStack(j, kb, sa);
    }

    /** `jugada.remove(s)` then `jugada.add(t)` on the player at `j`, where
        `s` is the stack at `k`, the first with its organ. */
    method ReplaceStack(j: nat, k: nat, t: Stack)
      requires Distinct() && j < |players| && k < |players[j].jugada| && NonEmptyStacks(players[j].jugada)
      requires forall m :: 0 <= m < k ==> players[j].jugada[m][0] != players[j].jugada[k][0]
      modifies players[j]
      ensures var g := old(State()); State() == WithStacks(g, j, RemoveAt(g.seats[j].stacks, k) + [t])
    {
      DropStack(j, k);
      AppendStack(j, t);
    }

    /** `aOtroCarta`: a virus, an organ for a single transplant, or the theft
        card; nothing else. */
    method OnOpponentCard(i: nat, j: nat, card: Card, organ: Card) returns (r: Result<bool>)
      requires Distinct() && i < |players| && j < |players| && i != j
      requires NonEmptyStacks(players[i].jugada) && NonEmptyStacks(players[j].jugada)
      modifies this, players[i], players[j]
      ensures players == old(players)
      ensures Outcome(OnOpponent(old(State()), i, j, card, organ), r, old(State()), State())
    {
      if IsVirus(card) {
        r := OnVirus(j, card, organ);
      } else if IsOrgan(card) {
        r := TransplantMove(i, j, card, organ);
      } else if card == OrganTheft {
        r := StealMove(i, j, organ);
      } else {
        r := Err(IllegalOpponentCard);
      }
    }

    /** `usarDescarte`: every other player's hand, in seat order, goes to the
        discard pile and is emptied. */
    method DiscardOthers(i: nat)
      requires Distinct() && i < |players|
      modifies this, players
      ensures players == old(players)
      ensures State() == OthersDiscarded(old(State()), i)
    {
      ghost var g := State();
      for k := 0 to |players|
        invariant players == old(players) && Distinct()
        invariant State() == DiscardedUpTo(g, i, k)
      {
        EmptyOtherHand(i, k);
      }
      DiscardedUpToEnds(g, i);
    }

    /** The body of the loop of `usarDescarte` for the seat at `k`. */
    method EmptyOtherHand(i: nat, k: nat)
      requires Distinct() && i < |players| && k < |players|
      modifies this, players[k]
      ensures players == old(players)
      ensures State() == EmptiedAt(old(State()), i, k)
    {
      if players[k] != players[i] {
        EmptyHand(k);
      }
    }

    /** `ozam.addAll(p.getMano())` then `p.getMano().clear()`. */
    method EmptyHand(k: nat)
      requires Distinct() && k < |players|
      modifies this, players[k]
      ensures players == old(players)
      ensures var g := old(State());
        State() == g.(discard := g.discard + g.seats[k].hand, seats := g.seats[k := g.seats[k].(hand := [])])
    {
      ozam := ozam + players[k].mano;
      players[k].mano := [];
      Reseated(this, old(State()), k);
    }
  
    // -------------------------------------------------------------------------
    // The infection treatment: `usarInfeccion` and the `posibleInfeccion` search

    /** The move the search found, made: `aOtroUnVirus` on the target's organ,
        the virus on the discard pile when its effect says so, and the virus
        off the actor's stack. */
    method ApplySpread(i: nat, m: Spread)
      requires Valid() && i < |players| && Fits(State(), i, m)
      modifies this, players[i], players[m.target]
      ensures players == old(players)
      ensures State() == Spreads(old(State()), i, m)
    {
      ghost var g := State();
      var res := OnVirus(m.target, m.virus, m.organ);
      ghost var a := PlaceVirus(g, m.target, m.virus, m.organ).value;
      assert res == Ok(a.discardIt) && State() == a.after && a.after.seats[i] == g.seats[i];
      TakeBack(i, m.stack, m.virus, res.value);
    }

    /** The `withRight` step of the search: the virus on the discard pile
        when its effect says so, then one copy of it off the actor's stack. */
    method TakeBack(i: nat, k: nat, virus: Card, discardIt: bool)
      requires Distinct() && i < |players| && k < |players[i].jugada|
      modifies this, players[i]
      ensures players == old(players)
      ensures var h := old(State());
        var h1 := if discardIt then h.(discard := h.discard + [virus]) else h;
        State() == WithStacks(h1, i, h.seats[i].stacks[k := RemoveFirst(h.seats[i].stacks[k], virus)])
    {
      if discardIt {
        Discard([virus]);
      }
      SetStack(i, k, RemoveFirst(players[i].jugada[k], virus));
    }

    /** `ozam.add` / `ozam.addAll`: cards on top of the discard pile. */
    method Discard(cs: seq<Card>)
      modifies this
      ensures players == old(players)
      ensures State() == old(State()).(discard := old(State()).discard + cs)
    {
      ozam := ozam + cs;
    }

    /** `usarInfeccion`: the search runs until it finds nothing. Each round
        takes a virus off the actor's table, so the loop ends. */
    method Infect(i: nat) returns (ghost ms: seq<Spread>)
      requires Valid() && i < |players|
      modifies this, players
      ensures Valid() && players == old(players)
      ensures Moves.Infected(old(State()), i, ms) && State() == Replay(old(State()), i, ms).value
    {
      ms := [];
      var more := true;
      while more
        invariant Valid() && players == old(players)
        invariant Replay(old(State()), i, ms) == Some(State())
        invariant !more ==> NoSpread(State(), i)
        decreases VirusesOn(State().seats[i].stacks) + (if more then 1 else 0)
      {
        ghost var m;
        more, m := SpreadOnce(i);
        if more {
          ReplaySnoc(old(State()), i, ms, m);
          ms := ms + [m];
        }
      }
    }

    /** One call of `posibleInfeccion(player)`: the search, and the move it
        finds made; each move takes a virus off the actor's table. */
    method SpreadOnce(i: nat) returns (more: bool, ghost m: Spread)
      requires Valid() && i < |players|
      modifies this, players
      ensures Valid() && players == old(players)
      ensures more ==> First(old(State()), i, m) && State() == Spreads(old(State()), i, m)
      ensures more ==> VirusesOn(State().seats[i].stacks) < VirusesOn(old(State()).seats[i].stacks)
      ensures !more ==> NoSpread(old(State()), i) && State() == old(State())
    {
      ghost var h := State();
      var found;
      more, found := FindSpread(State(), i);
      m := found;
      if more {
        assert Fits(h, i, found);
        SpreadKeeps(h, i, found);
        ApplySpread(i, found);
        assert State() == Spreads(h, i, found);
      }
    }

    // -------------------------------------------------------------------------
    // The public moves that play a card

    /** `usar`: only the two global treatments; the effect runs, then `tirar`
        discards the card. */
    method Use(auth: Auth, card: Card) returns (r: Result<Turn>)
      requires Valid()
      modifies this, players
      ensures Valid() && players == old(players)
      ensures Moves.Use(old(State()), auth, card, r, State())
    {
      var a := Actor(State(), auth);
      if a.Err? {
        return Err(a.error);
      }
      var i := a.value;
      if !(card == AllDiscard || card == Infection) {
        return Err(OnlyGlobalTreatments);
      }
      ghost var g := State();
      ghost var ms: seq<Spread> := [];
      if card == AllDiscard {
        DiscardOthers(i);
        OthersDiscardedKeeps(g, i);
      } else {
        ms := Infect(i);
      }
      ghost var h := State();
      r := Toss(auth, Some(card));
      if card == Infection {
        assert Moves.Infected(g, i, ms) && Moves.Toss(h, auth, Some(card), r, State());
      }
    }

    /** `aplayer`: the checks, then the card leaves the hand, and an organ
        becomes a new stack or a total transplant exchanges the two tables;
        the turn is handed off last. */
    method LayOnPlayer(auth: Auth, card: Card, name: string) returns (r: Result<Turn>)
      requires Valid()
      modifies this, players
      ensures Valid() && players == old(players)
      ensures Moves.LayOnPlayer(old(State()), auth, card, name, r, State())
    {
      var c := LayChecks(State(), auth, card, name);
      if c.Err? {
        return Err(c.error);
      }
      r := LayAndHandOff(c.value.0, c.value.1, card);
    }

    /** `aplayer` once its checks passed: the card leaves the hand or the
        move fails, then the card takes effect and the turn is handed off. */
    method LayAndHandOff(i: nat, j: nat, card: Card) returns (r: Result<Turn>)
      requires Valid() && i < |players| && j < |players|
      requires IsOrgan(card) || card == TotalTransplant
      requires IsOrgan(card) ==> card !in OrgansOf(players[i].jugada)
      modifies this, players
      ensures Valid() && players == old(players)
      ensures card !in old(State()).seats[i].hand ==> r == Err(CardNotInHand) && State() == old(State())
      ensures card in old(State()).seats[i].hand ==> HandedOff(PlayedOnPlayer(old(State()), i, j, card), i, r, State())
    {
      ghost var g := State();
      var q := LayCard(i, j, card);
      if q.Err? {
        return Err(q.error);
      }
      if IsOrgan(card) {
        CategoriesAreConstructors(card);
        ClaimedKeeps(g, i, card);
      } else {
        SwappedTablesLosesCard(g, i, j);
      }
      ghost var h := State();
      r := HandOff(i);
      HandOffKeeps(h, i, r, State());
    }

    /** `quitaDeMano`, then `addOrgano` or the exchange of the tables. */
    method LayCard(i: nat, j: nat, card: Card) returns (q: Result<()>)
      requires Distinct() && i < |players| && j < |players|
      requires IsOrgan(card) || card == TotalTransplant
      modifies players[i], players[j]
      ensures q.Ok? <==> card in old(State()).seats[i].hand
      ensures q.Err? ==> q == Err(CardNotInHand) && State() == old(State())
      ensures q.Ok? ==> State() == PlayedOnPlayer(old(State()), i, j, card)
    {
      ghost var g := State();
      q := DropFromHand(i, card);
      if q.Err? {
        return;
      }
      ghost var h := State();
      assert h.seats[i].stacks == g.seats[i].stacks && h.seats[j].stacks == g.seats[j].stacks;
      if IsOrgan(card) {
        AddStack(i, card);
      } else {
        Swap(i, j);
      }
    }

    /** `quitaDeMano` on the player at `i`, as a change of the match. */
    method DropFromHand(i: nat, card: Card) returns (q: Result<()>)
      requires Distinct() && i < |players|
      modifies players[i]
      ensures q.Ok? <==> card in old(State()).seats[i].hand
      ensures q.Err? ==> q == Err(CardNotInHand) && State() == old(State())
      ensures q.Ok? ==> State() == WithHand(old(State()), i, RemoveFirst(old(State()).seats[i].hand, card))
    {
      q := players[i].RemoveFromHand(card);
      Reseated(this, old(State()), i);
    }

    /** `addOrgano` on the player at `i`, as a change of the match. */
    method AddStack(i: nat, organ: Card)
      requires Distinct() && i < |players| && IsOrgan(organ)
      modifies players[i]
      ensures State() == WithStacks(old(State()), i, old(State()).seats[i].stacks + [[organ]])
    {
      var added := players[i].AddOrgan(organ);
      Reseated(this, old(State()), i);
    }

    /** `setJugada` on both players, the actor's table copied first; with
        the actor as the target the table ends as it was. */
    method Swap(i: nat, j: nat)
      requires Distinct() && i < |players| && j < |players|
      modifies players[i], players[j]
      ensures var g := old(State());
        State() == if i == j then g else WithStacks(WithStacks(g, i, g.seats[j].stacks), j, g.seats[i].stacks)
    {
      var xs := players[i].jugada;
      players[i].SetStacks(players[j].jugada);
      players[j].SetStacks(xs);
      if i == j {
        Reseated(this, old(State()), i);
      } else {
        Reseated2(this, old(State()), i, j);
      }
    }

    /** `acarta`: the checks, then the effect on oneself or on an opponent;
        a card the effect discards goes through `tirar`, and otherwise the
        turn is handed off before the card leaves the hand. */
    method PlayOnCard(auth: Auth, card: Card, name: string, target: Card) returns (r: Result<Turn>)
      requires Valid()
      modifies this, players
      ensures Valid() && players == old(players)
      ensures Moves.PlayOnCard(old(State()), auth, card, name, target, r, State())
    {
      var c := CardChecks(State(), auth, target, name);
      if c.Err? {
        return Err(c.error);
      }
      r := PlayChecked(auth, c.value.0, c.value.1, card, target);
    }

    /** `acarta` once its checks passed. */
    method PlayChecked(auth: Auth, i: nat, j: nat, card: Card, target: Card) returns (r: Result<Turn>)
      requires Valid() && i < |players| && j < |players|
      modifies this, players
      ensures Valid() && players == old(players)
      ensures match Effect(old(State()), i, j, card, target)
        case Err(e) => r == Err(e) && State() == old(State())
        case Ok(Applied(true, h)) => Moves.Toss(h, auth, Some(card), r, State())
        case Ok(Applied(false, h)) => exists r0, h2 :: HandedOff(h, i, r0, h2) && Unheld(h2, i, card, r0, r, State())
    {
      ghost var g := State();
      var e := Apply(i, j, card, target);
      if e.Err? {
        return Err(e.error);
      }
      EffectKeepsShape(g, i, j, card, target);
      if e.value {
        r := Toss(auth, Some(card));
      } else {
        ghost var r0, h2;
        r, r0, h2 := HandOffThenDrop(i, card);
      }
    }

    /** `aSuCarta` between the same credentials, `aOtroCarta` otherwise. */
    method Apply(i: nat, j: nat, card: Card, target: Card) returns (e: Result<bool>)
      requires Valid() && i < |players| && j < |players|
      modifies this, players[i], players[j]
      ensures players == old(players)
      ensures Outcome(Effect(old(State()), i, j, card, target), e, old(State()), State())
    {
      if players[i].auth == players[j].auth {
        e := OnOwnCard(i, card, target);
      } else {
        e := OnOpponentCard(i, j, card, target);
      }
    }

    /** `ganaOrobayturno(playerA).withRight(ignore -> playerA.quitaDeMano(cartaA))`. */
    method HandOffThenDrop(i: nat, card: Card) returns (r: Result<Turn>, ghost r0: Result<Turn>, ghost h2: GameState)
      requires Valid() && i < |players|
      modifies this, players[i]
      ensures Valid() && players == old(players)
      ensures HandedOff(old(State()), i, r0, h2) && Unheld(h2, i, card, r0, r, State())
    {
      ghost var h := State();
      r := HandOff(i);
      r0, h2 := r, State();
      HandOffKeeps(h, i, r0, h2);
      if r.Ok? {
        var q := DropFromHand(i, card);
        if q.Err? {
          r := Err(q.error);
        }
      }
      UnheldCards(h, i, card, r0, h2, r, State());
    }

    // -------------------------------------------------------------------------
    // What the players see: `status`

    /** `status`: whether the match is over, and every player in seat order
        with its own hand shown only to its owner, its table, and whether
        the turn is its own. */
    function Status(viewer: Auth): (st: GameStatus)
      reads this, players
      ensures st.ended == finDeLaPartida && |st.players| == |players|
      ensures forall k :: 0 <= k < |players| ==>
        st.players[k].id == players[k].auth.playerId && st.players[k].stacks == players[k].jugada
      ensures forall k :: 0 <= k < |players| && players[k].auth == viewer ==> st.players[k].hand == players[k].mano
      ensures forall k :: 0 <= k < |players| && players[k].auth != viewer ==>
        st.players[k].hand == Masked(players[k].mano)
      ensures currentPlayer < 0 ==> forall k :: 0 <= k < |players| ==> !st.players[k].current
      ensures Distinct() ==> forall k :: 0 <= k < |players| ==> (st.players[k].current <==> k == currentPlayer)
    {
      var turn := if 0 <= currentPlayer < |players| then Some(players[currentPlayer]) else None;
      GameStatus(finDeLaPartida, Statuses(players, viewer, turn))
    }
  }
}
