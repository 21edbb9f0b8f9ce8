/** The public moves of `VirusGame` as relations between the state before,
    the answer and the state after: `tirar`, `aplayer`, `usar` and `acarta`.
    Each one runs its checks, its effect and the hand-off in the order the
    source does, and keeps what the source keeps on the way, including the
    changes made before a later step fails. */
module Moves {
  import opened Wrappers
  import opened Cards
  import opened Seqs
  import opened Stacks
  import opened Players
  import opened Rules
  import opened Infection

  // ---------------------------------------------------------------------------
  // `tirar`

  predicate Toss(g: GameState, auth: Auth, card: Option<Card>, r: Result<Turn>, g': GameState)
  {
    match Actor(g, auth)
    case Err(e) => r == Err(e) && g' == g
    case Ok(i) => Tossed(g, i, card, r, g')
  }

  /** Discarding or passing keeps every card and the shape invariant; it
      fails without any change unless the card is held, or no card is named
      and fewer than three are held. */
  lemma TossKeeps(g: GameState, auth: Auth, card: Option<Card>, r: Result<Turn>, g': GameState)
    requires WellFormed(g) && Toss(g, auth, card, r, g')
    ensures WellFormed(g') && Bag(g') == Bag(g)
    ensures r == Err(MustPlayOrDiscard) <==>
      Actor(g, auth).Ok? && !(card.Some? && card.value in g.seats[g.current].hand) && !(card.None? && |g.seats[g.current].hand| < 3)
    ensures r == Err(MustPlayOrDiscard) ==> g' == g
    ensures r.Err? ==> r.error in {UnknownPlayer, BadCredentials, NotYourTurn, GameOver, MustPlayOrDiscard, OutOfCards}
  {
    if Actor(g, auth).Ok? {
      var i := Actor(g, auth).value;
      TossedKeeps(g, i, card, r, g');
      if card.Some? && card.value in g.seats[i].hand {
        HandOffKeeps(Discarded(g, i, card.value), i, r, g');
      } else if card.None? && |g.seats[i].hand| < 3 {
        HandOffKeeps(g, i, r, g');
      }
    }
  }

  // ---------------------------------------------------------------------------
  // `aplayer`

  /** The checks of `aplayer`, and the hand check that `quitaDeMano` makes
      before the card takes effect; the result is the actor and the target. */
  function LayCheck(g: GameState, auth: Auth, card: Card, name: string): (r: Result<(nat, nat)>)
    requires WellFormed(g)
    ensures r.Ok? ==> r.value.0 == g.current && r.value.1 < |g.seats| && card in g.seats[r.value.0].hand
    ensures r.Ok? ==> IsOrgan(card) || card == TotalTransplant
    ensures r.Ok? && IsOrgan(card) ==> r.value.1 == r.value.0 && card !in OrgansOf(g.seats[r.value.0].stacks)
  {
    var i :- Actor(g, auth);
    if !(IsOrgan(card) || card == TotalTransplant) then Err(NotPlayableOnPlayer)
    else if IsOrgan(card) && g.seats[i].auth.playerId != name then Err(OrganOnlyToSelf)
    else if IsOrgan(card) && card in OrgansOf(g.seats[i].stacks) then Err(OrganAlreadyHeld)
    else
      FindSeatUnique(g.seats, i);
      match FindSeat(g.seats, name)
      case None => Err(UnknownPlayer)
      case Some(j) =>
        if card !in g.seats[i].hand then Err(CardNotInHand)
        else Ok((i, j))
  }

  predicate LayOnPlayer(g: GameState, auth: Auth, card: Card, name: string, r: Result<Turn>, g': GameState)
    requires WellFormed(g)
  {
    match LayCheck(g, auth, card, name)
    case Err(e) => r == Err(e) && g' == g
    case Ok((i, j)) => HandedOff(PlayedOnPlayer(g, i, j, card), i, r, g')
  }

  /** Claiming an organ keeps every card; a total transplant loses its own
      card; both keep the shape invariant, and a failed check changes
      nothing. */
  lemma LayOnPlayerKeeps(g: GameState, auth: Auth, card: Card, name: string, r: Result<Turn>, g': GameState)
    requires WellFormed(g) && LayOnPlayer(g, auth, card, name, r, g')
    ensures WellFormed(g')
    ensures LayCheck(g, auth, card, name).Err? ==> g' == g && r.Err?
    ensures LayCheck(g, auth, card, name).Ok? && IsOrgan(card) ==> Bag(g') == Bag(g)
    ensures LayCheck(g, auth, card, name).Ok? && card == TotalTransplant ==> Bag(g') + multiset{TotalTransplant} == Bag(g)
  {
    if LayCheck(g, auth, card, name).Ok? {
      var (i, j) := LayCheck(g, auth, card, name).value;
      var h := PlayedOnPlayer(g, i, j, card);
      if IsOrgan(card) {
        CategoriesAreConstructors(card);
        ClaimedKeeps(g, i, card);
      } else {
        SwappedTablesLosesCard(g, i, j);
      }
      HandOffKeeps(h, i, r, g');
    }
  }

  // ---------------------------------------------------------------------------
  // `usar`

  /** The actor checks, then only the two global treatments; the effect runs
      and then `tirar` discards the card, which fails (keeping the effect)
      if the card is not held. The infection runs the loop to its end. */
  ghost predicate Use(g: GameState, auth: Auth, card: Card, r: Result<Turn>, g': GameState)
    requires WellFormed(g)
  {
    match Actor(g, auth)
    case Err(e) => r == Err(e) && g' == g
    case Ok(i) =>
      if card == AllDiscard then Toss(OthersDiscarded(g, i), auth, Some(card), r, g')
      else if card == Infection then
        exists ms :: Infected(g, i, ms) && Toss(Replay(g, i, ms).value, auth, Some(card), r, g')
      else r == Err(OnlyGlobalTreatments) && g' == g
  }

  /** A complete run of the infection loop: the moves the search makes, up to
      the point where no virus of the actor can be played. */
  ghost predicate Infected(g: GameState, i: nat, ms: seq<Spread>)
  {
    && Replay(g, i, ms).Some?
    && WellFormed(Replay(g, i, ms).value) && i < |Replay(g, i, ms).value.seats|
    && NoSpread(Replay(g, i, ms).value, i)
  }

  /** Both treatments keep every card and the shape invariant. */
  lemma UseKeeps(g: GameState, auth: Auth, card: Card, r: Result<Turn>, g': GameState)
    requires WellFormed(g) && Use(g, auth, card, r, g')
    ensures WellFormed(g') && Bag(g') == Bag(g)
    ensures !(card == AllDiscard || card == Infection) ==> r.Err? && g' == g
  {
    if Actor(g, auth).Ok? {
      var i := Actor(g, auth).value;
      if card == AllDiscard {
        OthersDiscardedKeeps(g, i);
        TossKeeps(OthersDiscarded(g, i), auth, Some(card), r, g');
      } else if card == Infection {
        var ms :| Infected(g, i, ms) && Toss(Replay(g, i, ms).value, auth, Some(card), r, g');
        ReplayKeeps(g, i, ms);
        TossKeeps(Replay(g, i, ms).value, auth, Some(card), r, g');
      }
    }
  }

  // ---------------------------------------------------------------------------
  // `acarta`

  /** The checks of `acarta`: the actor, a target card that is an organ, and
      a target player that exists. */
  function CardCheck(g: GameState, auth: Auth, target: Card, name: string): (r: Result<(nat, nat)>)
    ensures r.Ok? ==> r.value.0 == g.current && 0 <= g.current < |g.seats| && r.value.1 < |g.seats| && IsOrgan(target)
    ensures r.Err? ==> r.error in {UnknownPlayer, BadCredentials, NotYourTurn, GameOver, TargetNotOrgan}
  {
    var i :- Actor(g, auth);
    if !IsOrgan(target) then Err(TargetNotOrgan)
    else match FindSeat(g.seats, name)
      case None => Err(UnknownPlayer)
      case Some(j) => Ok((i, j))
  }

  /** `aSuCarta` on oneself (the same credentials), `aOtroCarta` on anyone
      else. */
  function Effect(g: GameState, i: nat, j: nat, card: Card, target: Card): (r: Result<Applied>)
    requires WellFormed(g) && i < |g.seats| && j < |g.seats|
    ensures r.Ok? ==> SameTable(g, r.value.after)
    ensures r.Err? ==> r.error !in {CardNotInHand, MustPlayOrDiscard, OutOfCards}
  {
    if g.seats[i].auth == g.seats[j].auth then Medicate(g, i, card, target)
    else OnOpponent(g, i, j, card, target)
  }

  /** After an effect that discards the card, `tirar` runs in full. After
      one that keeps it, the turn is handed off first and only then does the
      card leave the hand; when it is not held there the move fails with the
      effect and the hand-off already done. */
  ghost predicate PlayOnCard(g: GameState, auth: Auth, card: Card, name: string, target: Card, r: Result<Turn>, g': GameState)
    requires WellFormed(g)
  {
    match CardCheck(g, auth, target, name)
    case Err(e) => r == Err(e) && g' == g
    case Ok((i, j)) =>
      match Effect(g, i, j, card, target)
      case Err(e) => r == Err(e) && g' == g
      case Ok(Applied(true, h)) => Toss(h, auth, Some(card), r, g')
      case Ok(Applied(false, h)) =>
        exists r0, h2 :: HandedOff(h, i, r0, h2) && Unheld(h2, i, card, r0, r, g')
  }

  /** `withRight(quitaDeMano)`: after a successful hand-off the card leaves
      the hand, or the move fails when it is not there. */
  predicate Unheld(h: GameState, i: nat, card: Card, r0: Result<Turn>, r: Result<Turn>, g': GameState)
  {
    if r0.Err? || i >= |h.seats| then r == r0 && g' == h
    else if card in h.seats[i].hand then r == r0 && g' == WithHand(h, i, RemoveFirst(h.seats[i].hand, card))
    else r == Err(CardNotInHand) && g' == h
  }

  /** What each effect does to the cards of the match: a discarded virus or
      a theft keeps them all; a cure loses the cured virus; a virus or a
      medicine that stays on the table is one card more until it leaves the
      hand; a single transplant keeps them all. */
  lemma EffectCards(g: GameState, i: nat, j: nat, card: Card, target: Card)
    requires WellFormed(g) && i < |g.seats| && j < |g.seats| && Effect(g, i, j, card, target).Ok?
    ensures var a := Effect(g, i, j, card, target).value;
      && WellFormed(a.after)
      && (a.discardIt && (IsVirus(card) || card == OrganTheft) ==> Bag(a.after) == Bag(g))
      && (a.discardIt && IsMedicine(card) ==> exists v :: IsVirus(v) && Bag(a.after) + multiset{v} == Bag(g))
      && (!a.discardIt && (IsVirus(card) || IsMedicine(card)) ==> Bag(a.after) == Bag(g) + multiset{card})
      && (!a.discardIt && IsOrgan(card) ==> Bag(a.after) == Bag(g))
  {
    CategoriesAreConstructors(card);
    var a := Effect(g, i, j, card, target).value;
    if g.seats[i].auth == g.seats[j].auth {
      assert Effect(g, i, j, card, target) == Medicate(g, i, card, target);
      MedicateKeeps(g, i, card, target);
    } else if IsVirus(card) {
      assert Effect(g, i, j, card, target) == PlaceVirus(g, j, card, target);
      PlaceVirusKeeps(g, j, card, target);
    } else if IsOrgan(card) {
      assert Effect(g, i, j, card, target) == Transplant(g, i, j, card, target);
      TransplantKeeps(g, i, j, card, target);
    } else {
      assert Effect(g, i, j, card, target) == Steal(g, i, j, target);
      StealKeeps(g, i, j, target);
    }
  }

  /** Every effect that succeeds keeps the shape invariant. */
  lemma EffectKeepsShape(g: GameState, i: nat, j: nat, card: Card, target: Card)
    requires WellFormed(g) && i < |g.seats| && j < |g.seats| && Effect(g, i, j, card, target).Ok?
    ensures WellFormed(Effect(g, i, j, card, target).value.after)
  {
    EffectCards(g, i, j, card, target);
  }

  /** The effects change no hand but the actor's, and the actor's only by
      the single-transplant card that a transplant uses up. */
  lemma EffectHands(g: GameState, i: nat, j: nat, card: Card, target: Card)
    requires WellFormed(g) && i < |g.seats| && j < |g.seats| && Effect(g, i, j, card, target).Ok?
    ensures var a := Effect(g, i, j, card, target).value;
      && (forall k :: 0 <= k < |g.seats| && k != i ==> a.after.seats[k].hand == g.seats[k].hand)
      && (!(IsOrgan(card) && g.seats[i].auth != g.seats[j].auth) ==> a.after.seats[i].hand == g.seats[i].hand)
      && (IsOrgan(card) && g.seats[i].auth != g.seats[j].auth ==>
            multiset(a.after.seats[i].hand) + multiset{SingleTransplant} == multiset(g.seats[i].hand))
  {
    CategoriesAreConstructors(card);
    if g.seats[i].auth == g.seats[j].auth {
      assert Effect(g, i, j, card, target) == Medicate(g, i, card, target);
    } else if IsVirus(card) {
      assert Effect(g, i, j, card, target) == PlaceVirus(g, j, card, target);
    } else if IsOrgan(card) {
      assert Effect(g, i, j, card, target) == Transplant(g, i, j, card, target);
      RemoveFirstBag(g.seats[i].hand, SingleTransplant);
    } else {
      assert Effect(g, i, j, card, target) == Steal(g, i, j, target);
    }
  }

  /** The hand-off and the removal from the hand after an effect that keeps
      its card: exactly that card leaves the match when the move succeeds,
      nothing when it fails; a held card can only fail for want of cards to
      draw. */
  lemma UnheldCards(h: GameState, i: nat, card: Card, r0: Result<Turn>, h2: GameState, r: Result<Turn>, g': GameState)
    requires WellFormed(h) && i < |h.seats| && HandedOff(h, i, r0, h2) && Unheld(h2, i, card, r0, r, g')
    ensures WellFormed(g')
    ensures r.Ok? ==> Bag(g') + multiset{card} == Bag(h)
    ensures r.Err? ==> Bag(g') == Bag(h)
    ensures card in h.seats[i].hand ==> r.Ok? || r == Err(OutOfCards)
    ensures r.Err? ==> r == Err(OutOfCards) || (r == Err(CardNotInHand) && card !in h.seats[i].hand)
  {
    HandOffKeeps(h, i, r0, h2);
    if r0.Ok? && card in h2.seats[i].hand {
      DropKeeps(h2, i, card);
    }
    if r0.Ok? && r0.value.Passed? {
      assert h2.seats[i].hand == h.seats[i].hand + [r0.value.drawn];
    }
  }

  /** Whatever `acarta` does, the shape invariant holds afterwards, and a
      failed check or a refused effect changes nothing. */
  lemma PlayOnCardKeeps(g: GameState, auth: Auth, card: Card, name: string, target: Card, r: Result<Turn>, g': GameState)
    requires WellFormed(g) && PlayOnCard(g, auth, card, name, target, r, g')
    ensures WellFormed(g')
    ensures CardCheck(g, auth, target, name).Err? ==> r.Err? && g' == g
    ensures CardCheck(g, auth, target, name).Ok? ==>
      var (i, j) := CardCheck(g, auth, target, name).value;
      Effect(g, i, j, card, target).Err? ==> r.Err? && g' == g
  {
    if CardCheck(g, auth, target, name).Ok? {
      var (i, j) := CardCheck(g, auth, target, name).value;
      if Effect(g, i, j, card, target).Ok? {
        var a := Effect(g, i, j, card, target).value;
        EffectCards(g, i, j, card, target);
        if a.discardIt {
          TossKeeps(a.after, auth, Some(card), r, g');
        } else {
          var r0, h2 :| HandedOff(a.after, i, r0, h2) && Unheld(h2, i, card, r0, r, g');
          UnheldCards(a.after, i, card, r0, h2, r, g');
        }
      }
    }
  }

  /** The step of `acarta` after its checks and a successful effect. */
  lemma AfterEffect(g: GameState, auth: Auth, card: Card, name: string, target: Card, r: Result<Turn>, g': GameState)
    requires WellFormed(g) && PlayOnCard(g, auth, card, name, target, r, g')
    requires CardCheck(g, auth, target, name).Ok?
    requires var (i, j) := CardCheck(g, auth, target, name).value; Effect(g, i, j, card, target).Ok?
    ensures var (i, j) := CardCheck(g, auth, target, name).value;
      var a := Effect(g, i, j, card, target).value;
      && (a.discardIt ==> Toss(a.after, auth, Some(card), r, g'))
      && (!a.discardIt ==> exists r0, h2 :: HandedOff(a.after, i, r0, h2) && Unheld(h2, i, card, r0, r, g'))
  {
  }

  /** A held virus or theft card keeps every card of the match, unless the
      hand-off finds no card to draw after the virus has landed: then the
      virus stays on the table and in the hand. */
  lemma PlayOnCardHeld(g: GameState, auth: Auth, card: Card, name: string, target: Card, r: Result<Turn>, g': GameState)
    requires WellFormed(g) && PlayOnCard(g, auth, card, name, target, r, g')
    requires 0 <= g.current < |g.seats| && card in g.seats[g.current].hand
    requires IsVirus(card) || card == OrganTheft
    ensures r != Err(OutOfCards) ==> Bag(g') == Bag(g)
    ensures r == Err(OutOfCards) ==> IsVirus(card) && Bag(g') == Bag(g) + multiset{card}
    ensures r == Err(OutOfCards) ==> |g'.seats| == |g.seats| && card in g'.seats[g.current].hand
  {
    if r == Err(OutOfCards) {
      PlayOnCardStranded(g, auth, card, name, target, r, g');
      CategoriesAreConstructors(card);
    } else {
      HeldNotStranded(g, auth, card, name, target, r, g');
    }
  }

  /** `PlayOnCardHeld` for every outcome but the stranded hand-off. */
  lemma HeldNotStranded(g: GameState, auth: Auth, card: Card, name: string, target: Card, r: Result<Turn>, g': GameState)
    requires WellFormed(g) && PlayOnCard(g, auth, card, name, target, r, g')
    requires 0 <= g.current < |g.seats| && card in g.seats[g.current].hand
    requires IsVirus(card) || card == OrganTheft
    requires r != Err(OutOfCards)
    ensures Bag(g') == Bag(g)
  {
    if CardCheck(g, auth, target, name).Ok? {
      var (i, j) := CardCheck(g, auth, target, name).value;
      if Effect(g, i, j, card, target).Ok? {
        var a := Effect(g, i, j, card, target).value;
        AfterEffect(g, auth, card, name, target, r, g');
        EffectCards(g, i, j, card, target);
        EffectHands(g, i, j, card, target);
        CategoriesAreConstructors(card);
        if a.discardIt {
          TossKeeps(a.after, auth, Some(card), r, g');
        } else {
          var r0, h2 :| HandedOff(a.after, i, r0, h2) && Unheld(h2, i, card, r0, r, g');
          HeldKeptCards(g, a.after, i, card, r0, h2, r, g');
        }
      }
    }
  }

  lemma HeldKeptCards(g: GameState, h: GameState, i: nat, card: Card, r0: Result<Turn>, h2: GameState, r: Result<Turn>, g': GameState)
    requires WellFormed(h) && i < |h.seats| && i < |g.seats| && HandedOff(h, i, r0, h2) && Unheld(h2, i, card, r0, r, g')
    requires Bag(h) == Bag(g) + multiset{card} && card in h.seats[i].hand && r != Err(OutOfCards)
    ensures Bag(g') == Bag(g)
  {
    UnheldCards(h, i, card, r0, h2, r, g');
    forall x ensures Bag(g')[x] == Bag(g)[x] {
      assert (Bag(g') + multiset{card})[x] == Bag(h)[x];
      assert Bag(h)[x] == (Bag(g) + multiset{card})[x];
    }
  }

  /** Only a move that passed its checks and took effect can fail for the
      hand, a discard or a draw. */
  lemma LateFailure(g: GameState, auth: Auth, card: Card, name: string, target: Card, r: Result<Turn>, g': GameState)
    requires WellFormed(g) && PlayOnCard(g, auth, card, name, target, r, g')
    requires r.Err? && r.error in {CardNotInHand, MustPlayOrDiscard, OutOfCards}
    ensures CardCheck(g, auth, target, name).Ok?
    ensures var (i, j) := CardCheck(g, auth, target, name).value; Effect(g, i, j, card, target).Ok?
  {
  }

  /** A virus or a medicine that is not in the actor's hand still takes
      effect; when it stays on the table, the hand-off follows and only then
      does the move fail, and the match has one card more than before. */
  lemma PlayOnCardUnheld(g: GameState, auth: Auth, card: Card, name: string, target: Card, r: Result<Turn>, g': GameState)
    requires WellFormed(g) && PlayOnCard(g, auth, card, name, target, r, g')
    requires IsVirus(card) || IsMedicine(card)
    requires r == Err(CardNotInHand)
    ensures Bag(g') == Bag(g) + multiset{card} && CardCount(g') == CardCount(g) + 1
    ensures 0 <= g.current < |g.seats| && card !in g.seats[g.current].hand
  {
    LateFailure(g, auth, card, name, target, r, g');
    var (i, j) := CardCheck(g, auth, target, name).value;
    var a := Effect(g, i, j, card, target).value;
    AfterEffect(g, auth, card, name, target, r, g');
    EffectCards(g, i, j, card, target);
    EffectHands(g, i, j, card, target);
    CategoriesAreConstructors(card);
    if a.discardIt {
      TossKeeps(a.after, auth, Some(card), r, g');
      assert false;
    }
    var r0, h2 :| HandedOff(a.after, i, r0, h2) && Unheld(h2, i, card, r0, r, g');
    UnheldCards(a.after, i, card, r0, h2, r, g');
    CardCountIsBagSize(g);
    CardCountIsBagSize(g');
  }

  /** When the deck and the discard pile are both empty, the hand-off after
      a virus or a medicine that stays on the table throws before
      `quitaDeMano`, and the effect stays: the card is on the table and
      still in the hand, so the match has one card more. No other play meets
      this failure: `tirar` and a single transplant both put a card on the
      discard pile before the draw. */
  lemma PlayOnCardStranded(g: GameState, auth: Auth, card: Card, name: string, target: Card, r: Result<Turn>, g': GameState)
    requires WellFormed(g) && PlayOnCard(g, auth, card, name, target, r, g')
    requires r == Err(OutOfCards)
    ensures g'.deck == [] && g'.discard == []
    ensures CardCheck(g, auth, target, name).Ok?
    ensures var (i, j) := CardCheck(g, auth, target, name).value;
      && Effect(g, i, j, card, target).Ok?
      && !Effect(g, i, j, card, target).value.discardIt
      && g' == Effect(g, i, j, card, target).value.after
    ensures IsVirus(card) || IsMedicine(card)
    ensures |g'.seats| == |g.seats| && g'.seats[g.current].hand == g.seats[g.current].hand
    ensures Bag(g') == Bag(g) + multiset{card} && CardCount(g') == CardCount(g) + 1
  {
    StrandedAfterEffect(g, auth, card, name, target, r, g');
    var (i, j) := CardCheck(g, auth, target, name).value;
    EffectHands(g, i, j, card, target);
    EffectCards(g, i, j, card, target);
    CategoriesAreConstructors(card);
    CardCountIsBagSize(g);
    CardCountIsBagSize(g');
  }

  /** The failed hand-off of a stranded `acarta` leaves the effect's state
      as it is. */
  lemma StrandedAfterEffect(g: GameState, auth: Auth, card: Card, name: string, target: Card, r: Result<Turn>, g': GameState)
    requires WellFormed(g) && PlayOnCard(g, auth, card, name, target, r, g')
    requires r == Err(OutOfCards)
    ensures CardCheck(g, auth, target, name).Ok?
    ensures var (i, j) := CardCheck(g, auth, target, name).value;
      && Effect(g, i, j, card, target).Ok?
      && !Effect(g, i, j, card, target).value.discardIt
      && g' == Effect(g, i, j, card, target).value.after
      && g'.deck == [] && g'.discard == []
    ensures IsVirus(card) || IsMedicine(card)
  {
    LateFailure(g, auth, card, name, target, r, g');
    var (i, j) := CardCheck(g, auth, target, name).value;
    var a := Effect(g, i, j, card, target).value;
    AfterEffect(g, auth, card, name, target, r, g');
    if a.discardIt {
      ActorOnSameTable(g, a.after, auth);
      TossNeverStrands(a.after, i, card, r, g');
      assert false;
    }
    var r0, h2 :| HandedOff(a.after, i, r0, h2) && Unheld(h2, i, card, r0, r, g');
    if !IsVirus(card) && !IsMedicine(card) {
      TransplantNeverStrands(g, i, j, card, target);
      assert false;
    }
  }

  /** An effect that keeps a card other than a virus or a medicine is a single
      transplant, which leaves its transplant card on the discard pile. */
  lemma TransplantNeverStrands(g: GameState, i: nat, j: nat, card: Card, target: Card)
    requires WellFormed(g) && i < |g.seats| && j < |g.seats| && Effect(g, i, j, card, target).Ok?
    requires !Effect(g, i, j, card, target).value.discardIt && !IsVirus(card) && !IsMedicine(card)
    ensures Effect(g, i, j, card, target).value.after.discard != []
  {
    CategoriesAreConstructors(card);
    if g.seats[i].auth != g.seats[j].auth && IsOrgan(card) {
      assert Effect(g, i, j, card, target) == Transplant(g, i, j, card, target);
    }
  }

  /** A discard puts a card on the discard pile before the draw, so it never
      runs out of cards. */
  lemma TossNeverStrands(h: GameState, i: nat, card: Card, r: Result<Turn>, g': GameState)
    requires i < |h.seats| && Tossed(h, i, Some(card), r, g')
    ensures r != Err(OutOfCards)
  {
  }

  /** A single transplant that succeeds loses the organ card it names: the
      stacks change owners, the transplant card is discarded, and the organ
      card leaves the hand (where it must lie besides the table) and is put
      nowhere. */
  lemma TransplantLosesOrgan(g: GameState, auth: Auth, card: Card, name: string, target: Card, r: Result<Turn>, g': GameState)
    requires WellFormed(g) && PlayOnCard(g, auth, card, name, target, r, g')
    requires IsOrgan(card) && r.Ok?
    ensures Bag(g') + multiset{card} == Bag(g)
  {
    var (i, j) := CardCheck(g, auth, target, name).value;
    var a := Effect(g, i, j, card, target).value;
    AfterEffect(g, auth, card, name, target, r, g');
    EffectCards(g, i, j, card, target);
    CategoriesAreConstructors(card);
    var r0, h2 :| HandedOff(a.after, i, r0, h2) && Unheld(h2, i, card, r0, r, g');
    UnheldCards(a.after, i, card, r0, h2, r, g');
  }
}
