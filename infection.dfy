/** The infection treatment, `usarInfeccion`: while some virus on the actor's
    table can be played on another player's organ, the first such virus (in
    table order, then card order) is played there by the rules of a virus
    card and leaves the actor's stack. Which opponent and which organ are
    tried first is shuffled, so any opponent and organ on which that virus
    lands may be the one chosen. */
module Infection {
  import opened Wrappers
  import opened Cards
  import opened Seqs
  import opened Stacks
  import opened Players
  import opened Rules

  /** One success of the `posibleInfeccion` search: the virus lying on the
      actor's stack at position `stack` is played on the `organ` of player
      `target`. */
  datatype Spread = Spread(stack: nat, virus: Card, target: nat, organ: Card)

  /** The move is one the search may find: a virus of the actor's stack, an
      opponent, one of the five organ cards, and the virus lands there. */
  predicate Fits(g: GameState, i: nat, m: Spread)
    requires WellFormed(g)
  {
    && i < |g.seats| && m.target < |g.seats| && m.target != i
    && m.stack < |g.seats[i].stacks| && m.virus in g.seats[i].stacks[m.stack] && IsVirus(m.virus)
    && m.organ in OrganCards()
    && PlaceVirus(g, m.target, m.virus, m.organ).Ok?
  }

  /** The state after the move: the virus's effect on the target, the virus
      on the discard pile when the effect says so, and one copy of the virus
      off the actor's stack. */
  function Spreads(g: GameState, i: nat, m: Spread): (h: GameState)
    requires WellFormed(g) && Fits(g, i, m)
    ensures SameTable(g, h)
  {
    var a := PlaceVirus(g, m.target, m.virus, m.organ).value;
    var after := if a.discardIt then a.after.(discard := a.after.discard + [m.virus]) else a.after;
    var mine := g.seats[i].stacks;
    WithStacks(after, i, mine[m.stack := RemoveFirst(mine[m.stack], m.virus)])
  }

  /** The card `c` on the actor's stack `k` can be played somewhere. */
  ghost predicate CanSpread(g: GameState, i: nat, k: nat, c: Card)
    requires WellFormed(g)
  {
    exists m: Spread :: m.stack == k && m.virus == c && Fits(g, i, m)
  }

  /** None of the first `n` cards of the actor's stack `k` is a virus that can
      be played somewhere. */
  ghost predicate Blocked(g: GameState, i: nat, k: nat, n: nat)
    requires WellFormed(g) && i < |g.seats| && k < |g.seats[i].stacks| && n <= |g.seats[i].stacks[k]|
  {
    forall p :: 0 <= p < n ==> !(IsVirus(g.seats[i].stacks[k][p]) && CanSpread(g, i, k, g.seats[i].stacks[k][p]))
  }

  /** Extending a blocked prefix by a card that is not a playable virus. */
  lemma BlockedStep(g: GameState, i: nat, k: nat, n: nat)
    requires WellFormed(g) && i < |g.seats| && k < |g.seats[i].stacks| && n < |g.seats[i].stacks[k]|
    requires Blocked(g, i, k, n)
    requires !(IsVirus(g.seats[i].stacks[k][n]) && CanSpread(g, i, k, g.seats[i].stacks[k][n]))
    ensures Blocked(g, i, k, n + 1)
  {
  }

  /** The virus lands on none of the first `n` organs of `os`. */
  predicate Misses(ts: seq<Stack>, virus: Card, os: seq<Card>, n: nat)
    requires NonEmptyStacks(ts) && n <= |os|
  {
    forall p :: 0 <= p < n ==> !Lands(ts, virus, os[p])
  }

  lemma MissesStep(ts: seq<Stack>, virus: Card, os: seq<Card>, n: nat)
    requires NonEmptyStacks(ts) && n < |os| && Misses(ts, virus, os, n) && !Lands(ts, virus, os[n])
    ensures Misses(ts, virus, os, n + 1)
  {
  }

  /** The virus lands on no organ of the table `ts`. */
  predicate Shielded(ts: seq<Stack>, virus: Card)
    requires NonEmptyStacks(ts)
  {
    forall o :: o in OrganCards() ==> !Lands(ts, virus, o)
  }

  /** None of the first `n` players in `order`, the actor aside, can take the
      virus. */
  predicate NoneReached(g: GameState, i: nat, virus: Card, order: seq<nat>, n: nat)
    requires WellFormed(g) && n <= |order| && forall p :: 0 <= p < |order| ==> order[p] < |g.seats|
  {
    forall p :: 0 <= p < n && order[p] != i ==> Shielded(g.seats[order[p]].stacks, virus)
  }

  lemma NoneReachedStep(g: GameState, i: nat, virus: Card, order: seq<nat>, n: nat)
    requires WellFormed(g) && n < |order| && forall p :: 0 <= p < |order| ==> order[p] < |g.seats|
    requires NoneReached(g, i, virus, order, n)
    requires order[n] != i ==> Shielded(g.seats[order[n]].stacks, virus)
    ensures NoneReached(g, i, virus, order, n + 1)
  {
  }

  /** When no player in `order` but the actor can take the virus, and every
      opponent is in `order`, the virus cannot be played from stack `k`. */
  lemma NoneReachedAll(g: GameState, i: nat, k: nat, virus: Card, order: seq<nat>)
    requires WellFormed(g) && forall p :: 0 <= p < |order| ==> order[p] < |g.seats|
    requires forall t :: 0 <= t < |g.seats| ==> t in order
    requires NoneReached(g, i, virus, order, |order|)
    ensures !CanSpread(g, i, k, virus)
  {
    forall m: Spread | m.stack == k && m.virus == virus ensures !Fits(g, i, m) {
      if m.target < |g.seats| && m.target != i && m.organ in OrganCards() {
        assert m.target in order;
        var p :| 0 <= p < |order| && order[p] == m.target;
        assert Shielded(g.seats[order[p]].stacks, virus);
      }
    }
  }

  /** The stopping condition of the `while` loop: no virus of the actor can
      be played anywhere. */
  ghost predicate NoSpread(g: GameState, i: nat)
    requires WellFormed(g) && i < |g.seats|
  {
    forall k :: 0 <= k < |g.seats[i].stacks| ==> Blocked(g, i, k, |g.seats[i].stacks[k]|)
  }

  /** The move is the one the search makes: it fits, and no earlier stack and
      no earlier card of its stack holds a virus that could be played. */
  ghost predicate First(g: GameState, i: nat, m: Spread)
    requires WellFormed(g)
  {
    && Fits(g, i, m)
    && (forall k :: 0 <= k < m.stack ==> Blocked(g, i, k, |g.seats[i].stacks[k]|))
    && Blocked(g, i, m.stack, IndexOf(g.seats[i].stacks[m.stack], m.virus))
  }

  /** The viruses lying on a table. */
  function VirusesOn(ss: seq<Stack>): nat
  {
    if ss == [] then 0 else Count(ss[0], IsVirus) + VirusesOn(ss[1..])
  }

  lemma {:induction false} VirusesOnUpdate(ss: seq<Stack>, k: nat, t: Stack)
    requires k < |ss|
    ensures VirusesOn(ss[k := t]) + Count(ss[k], IsVirus) == VirusesOn(ss) + Count(t, IsVirus)
  {
    if k > 0 {
      assert ss[k := t][1..] == ss[1..][k - 1 := t];
      VirusesOnUpdate(ss[1..], k - 1, t);
    } else {
      assert ss[k := t][1..] == ss[1..];
    }
  }

  /** The successive states of a run of the loop, each move being the one the
      search makes; `None` when some move is not. */
  ghost function Replay(g: GameState, i: nat, ms: seq<Spread>): Option<GameState>
    decreases |ms|
  {
    if ms == [] then Some(g)
    else match Replay(g, i, ms[..|ms| - 1])
      case None => None
      case Some(h) =>
        if WellFormed(h) && i < |h.seats| && First(h, i, ms[|ms| - 1]) then Some(Spreads(h, i, ms[|ms| - 1]))
        else None
  }

  /** The virus's own effect, with the virus on the discard pile when the
      effect discards it: every card kept, plus the virus itself. */
  lemma LandedKeeps(g: GameState, i: nat, m: Spread)
    requires WellFormed(g) && Fits(g, i, m)
    ensures var a := PlaceVirus(g, m.target, m.virus, m.organ).value;
      var after := if a.discardIt then a.after.(discard := a.after.discard + [m.virus]) else a.after;
      && WellFormed(after) && Bag(after) == Bag(g) + multiset{m.virus}
      && SameTable(g, after) && after.seats[i] == g.seats[i]
      && (forall k :: 0 <= k < |g.seats| ==> after.seats[k].hand == g.seats[k].hand)
  {
    var a := PlaceVirus(g, m.target, m.virus, m.organ).value;
    PlaceVirusKeeps(g, m.target, m.virus, m.organ);
    if a.discardIt {
      var after := a.after.(discard := a.after.discard + [m.virus]);
      forall x ensures Bag(after)[x] == (Bag(g) + multiset{m.virus})[x] {
        assert Bag(a.after)[x] == Bag(g)[x];
      }
    }
  }

  /** One move keeps every card and the shape invariant, takes exactly one
      virus off the actor's table, and changes no hand. */
  lemma SpreadKeeps(g: GameState, i: nat, m: Spread)
    requires WellFormed(g) && Fits(g, i, m)
    ensures WellFormed(Spreads(g, i, m)) && Bag(Spreads(g, i, m)) == Bag(g)
    ensures VirusesOn(Spreads(g, i, m).seats[i].stacks) + 1 == VirusesOn(g.seats[i].stacks)
    ensures forall k :: 0 <= k < |g.seats| ==> Spreads(g, i, m).seats[k].hand == g.seats[k].hand
  {
    var a := PlaceVirus(g, m.target, m.virus, m.organ).value;
    var after := if a.discardIt then a.after.(discard := a.after.discard + [m.virus]) else a.after;
    LandedKeeps(g, i, m);
    var mine := g.seats[i].stacks;
    var t := RemoveFirst(mine[m.stack], m.virus);
    assert Spreads(g, i, m) == WithStacks(after, i, mine[m.stack := t]);
    TakenBackKeeps(g, after, i, m.stack, m.virus);
  }

  /** The virus leaving the actor's stack after it landed elsewhere. */
  lemma TakenBackKeeps(g: GameState, after: GameState, i: nat, k: nat, virus: Card)
    requires WellFormed(after) && i < |g.seats| && |after.seats| == |g.seats| && after.seats[i] == g.seats[i]
    requires Bag(after) == Bag(g) + multiset{virus}
    requires k < |g.seats[i].stacks| && virus in g.seats[i].stacks[k] && IsVirus(virus)
    requires forall n :: 0 <= n < |g.seats| ==> after.seats[n].hand == g.seats[n].hand
    ensures var mine := g.seats[i].stacks;
      var h := WithStacks(after, i, mine[k := RemoveFirst(mine[k], virus)]);
      && WellFormed(h) && Bag(h) == Bag(g)
      && VirusesOn(h.seats[i].stacks) + 1 == VirusesOn(mine)
      && (forall n :: 0 <= n < |g.seats| ==> h.seats[n].hand == g.seats[n].hand)
  {
    var mine := g.seats[i].stacks;
    var s := mine[k];
    var t := RemoveFirst(s, virus);
    VirusLeavesKeeps(after, i, k, virus);
    var h := WithStacks(after, i, mine[k := t]);
    CancelCard(Bag(h), Bag(g), virus);
    RemoveFirstCount(s, virus, IsVirus);
    VirusesOnUpdate(mine, k, t);
  }

  /** A virus leaving one of the actor's stacks (on a well-formed table this
      is the `[O,V]` shape going back to `[O]`). */
  lemma VirusLeavesKeeps(g: GameState, i: nat, k: nat, virus: Card)
    requires WellFormed(g) && i < |g.seats| && k < |g.seats[i].stacks|
    requires virus in g.seats[i].stacks[k] && IsVirus(virus)
    ensures var s := g.seats[i].stacks[k];
      var h := WithStacks(g, i, g.seats[i].stacks[k := RemoveFirst(s, virus)]);
      WellFormed(h) && Bag(h) + multiset{virus} == Bag(g)
  {
    var s := g.seats[i].stacks[k];
    assert WellFormedStack(s);
    CategoriesAreConstructors(s[0]);
    CategoriesAreConstructors(virus);
    assert |s| == 2 && s[1] == virus by {
      if |s| == 3 {
        CategoriesAreConstructors(s[1]);
        CategoriesAreConstructors(s[2]);
      }
    }
    RemoveFirstAt(s, 1);
    assert RemoveAt(s, 1) == [s[0]];
    CutKeeps(g, i, k);
  }

  /** A run of the loop keeps every card and the shape invariant, changes no
      hand, and removes one virus from the actor's table per move; so it
      makes at most as many moves as the actor has viruses, and it ends. */
  lemma {:induction false} ReplayKeeps(g: GameState, i: nat, ms: seq<Spread>)
    requires WellFormed(g) && i < |g.seats| && Replay(g, i, ms).Some?
    ensures var h := Replay(g, i, ms).value;
      && WellFormed(h) && Bag(h) == Bag(g) && SameTable(g, h)
      && (forall k :: 0 <= k < |g.seats| ==> h.seats[k].hand == g.seats[k].hand)
      && VirusesOn(h.seats[i].stacks) + |ms| == VirusesOn(g.seats[i].stacks)
    decreases |ms|
  {
    if ms != [] {
      var front := ms[..|ms| - 1];
      ReplayKeeps(g, i, front);
      SpreadKeeps(Replay(g, i, front).value, i, ms[|ms| - 1]);
    }
  }

  /** Replaying moves one after another. */
  lemma ReplaySnoc(g: GameState, i: nat, ms: seq<Spread>, m: Spread)
    requires Replay(g, i, ms).Some?
    requires var h := Replay(g, i, ms).value; WellFormed(h) && i < |h.seats| && First(h, i, m)
    ensures Replay(g, i, ms + [m]) == Some(Spreads(Replay(g, i, ms).value, i, m))
  {
    assert (ms + [m])[..|ms|] == ms;
  }

  /** The stopping condition holds exactly when no move fits. */
  lemma NoSpreadIffNoFit(g: GameState, i: nat)
    requires WellFormed(g) && i < |g.seats|
    ensures NoSpread(g, i) <==> forall m :: !Fits(g, i, m)
  {
    if !NoSpread(g, i) {
      var k, p :| 0 <= k < |g.seats[i].stacks| && 0 <= p < |g.seats[i].stacks[k]|
        && IsVirus(g.seats[i].stacks[k][p]) && CanSpread(g, i, k, g.seats[i].stacks[k][p]);
    }
    if exists m :: Fits(g, i, m) {
      var m :| Fits(g, i, m);
      var s := g.seats[i].stacks[m.stack];
      var p := IndexOf(s, m.virus);
      assert IsVirus(s[p]) && CanSpread(g, i, m.stack, s[p]);
    }
  }

  // ---------------------------------------------------------------------------
  // The `posibleInfeccion` search. A failed `aOtroUnVirus` changes nothing,
  // so the search reads the match as it stands and the move it finds is made
  // afterwards.

  /** The innermost `posibleInfeccion`: the five organs in shuffled order,
      the first one of the table `ts` on which the virus lands. */
  method FindOrgan(ts: seq<Stack>, virus: Card) returns (found: bool, organ: Card)
    requires NonEmptyStacks(ts)
    ensures found ==> organ in OrganCards() && Lands(ts, virus, organ)
    ensures !found ==> Shielded(ts, virus)
  {
    var organos := Shuffle(OrganCards());
    ShuffledElements(organos, OrganCards());
    for n := 0 to |organos|
      invariant Misses(ts, virus, organos, n)
    {
      if Lands(ts, virus, organos[n]) {
        return true, organos[n];
      }
      MissesStep(ts, virus, organos, n);
    }
    forall o | o in OrganCards() ensures !Lands(ts, virus, o) {
      var p :| 0 <= p < |organos| && organos[p] == o;
    }
    found, organ := false, Organ(Wildcard);
  }

  /** `posibleInfeccion` for one virus: the players in shuffled order, the
      actor skipped, each tried with every organ. */
  method FindTarget(g: GameState, i: nat, k: nat, virus: Card) returns (found: bool, m: Spread)
    requires WellFormed(g) && i < |g.seats|
    requires k < |g.seats[i].stacks| && virus in g.seats[i].stacks[k] && IsVirus(virus)
    ensures found ==> m.stack == k && m.virus == virus && Fits(g, i, m)
    ensures !found ==> !CanSpread(g, i, k, virus)
  {
    var order := Shuffle(Positions(|g.seats|));
    ShuffledPositions(order, |g.seats|);
    for n := 0 to |order|
      invariant NoneReached(g, i, virus, order, n)
    {
      var t := order[n];
      if t != i {
        var organ;
        found, organ := FindOrgan(g.seats[t].stacks, virus);
        if found {
          return true, Spread(k, virus, t, organ);
        }
      }
      NoneReachedStep(g, i, virus, order, n);
    }
    NoneReachedAll(g, i, k, virus, order);
    found, m := false, Spread(k, virus, i, Organ(Wildcard));
  }

  /** `posibleInfeccion` for one stack: its viruses in order, over a copy of
      the stack. */
  method FindInStack(g: GameState, i: nat, k: nat) returns (found: bool, m: Spread)
    requires WellFormed(g) && i < |g.seats| && k < |g.seats[i].stacks|
    ensures found ==> m.stack == k && Fits(g, i, m)
    ensures found ==> Blocked(g, i, k, IndexOf(g.seats[i].stacks[k], m.virus))
    ensures !found ==> Blocked(g, i, k, |g.seats[i].stacks[k]|)
  {
    var s := g.seats[i].stacks[k];
    for n := 0 to |s|
      invariant Blocked(g, i, k, n)
    {
      if IsVirus(s[n]) {
        found, m := FindTarget(g, i, k, s[n]);
        if found {
          assert IndexOf(s, s[n]) <= n;
          return;
        }
      }
      BlockedStep(g, i, k, n);
    }
    found, m := false, Spread(k, Organ(Wildcard), i, Organ(Wildcard));
  }

  /** `posibleInfeccion` for the player: the stacks in table order; what it
      finds is the first move of the search, and finding nothing is the
      stopping condition. */
  method FindSpread(g: GameState, i: nat) returns (found: bool, m: Spread)
    requires WellFormed(g) && i < |g.seats|
    ensures found ==> First(g, i, m)
    ensures !found ==> NoSpread(g, i)
  {
    for k := 0 to |g.seats[i].stacks|
      invariant StacksBlocked(g, i, k)
    {
      found, m := FindInStack(g, i, k);
      if found {
        return;
      }
      StacksBlockedStep(g, i, k);
    }
    found, m := false, Spread(0, Organ(Wildcard), i, Organ(Wildcard));
  }

  /** None of the actor's first `k` stacks holds a playable virus. */
  ghost predicate StacksBlocked(g: GameState, i: nat, k: nat)
    requires WellFormed(g) && i < |g.seats| && k <= |g.seats[i].stacks|
  {
    forall q :: 0 <= q < k ==> Blocked(g, i, q, |g.seats[i].stacks[q]|)
  }

  lemma StacksBlockedStep(g: GameState, i: nat, k: nat)
    requires WellFormed(g) && i < |g.seats| && k < |g.seats[i].stacks|
    requires StacksBlocked(g, i, k) && Blocked(g, i, k, |g.seats[i].stacks[k]|)
    ensures StacksBlocked(g, i, k + 1)
  {
  }
}
