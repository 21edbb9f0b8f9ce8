/** A player: credentials, a hand and a list of organ stacks, with the queries
    and the in-place mutators of `Player`. */
module Players {
  import opened Wrappers
  import opened Cards
  import opened Seqs
  import opened Stacks

  /** A player's credentials; two credentials are the same player when both
      parts are equal. */
  datatype Auth = Auth(playerId: string, password: string)

  /** A snapshot of one player. */
  datatype Seat = Seat(auth: Auth, hand: seq<Card>, stacks: seq<Stack>)

  /** What `getStatus` reports about one player. */
  datatype PlayerStatus = PlayerStatus(id: string, name: string, hand: seq<Card>, stacks: seq<Stack>, current: bool)

  /** `getJugada(Carta)`: the position of the first stack headed by `organ`.
      The card must be an organ, and such a stack must exist. */
  function FindStack(stacks: seq<Stack>, organ: Card): (r: Result<nat>)
    requires NonEmptyStacks(stacks)
    ensures !IsOrgan(organ) ==> r == Err(NotAnOrgan)
    ensures IsOrgan(organ) && r.Err? ==> r == Err(NoSuchStack) && forall k :: 0 <= k < |stacks| ==> stacks[k][0] != organ
    ensures r.Ok? ==> IsOrgan(organ) && r.value < |stacks| && stacks[r.value][0] == organ
    ensures r.Ok? ==> forall k :: 0 <= k < r.value ==> stacks[k][0] != organ
  {
    if !IsOrgan(organ) then Err(NotAnOrgan)
    else
      var k := StackOf(stacks, organ);
      if k < |stacks| then Ok(k) else Err(NoSuchStack)
  }

  /** The position of the first stack headed by `organ`, `|stacks|` if none. */
  function StackOf(stacks: seq<Stack>, organ: Card): (k: nat)
    requires NonEmptyStacks(stacks)
    ensures k <= |stacks| && (k < |stacks| ==> stacks[k][0] == organ)
    ensures forall j :: 0 <= j < k ==> stacks[j][0] != organ
  {
    if stacks == [] then 0
    else if stacks[0][0] == organ then 0
    else 1 + StackOf(stacks[1..], organ)
  }

  /** Whether the card lies in some stack. */
  predicate OnTable(stacks: seq<Stack>, c: Card)
  {
    exists k :: 0 <= k < |stacks| && c in stacks[k]
  }

  lemma OnTableCons(stacks: seq<Stack>)
    requires stacks != []
    ensures forall c :: OnTable(stacks, c) <==> c in stacks[0] || OnTable(stacks[1..], c)
  {
    forall c | OnTable(stacks[1..], c)
      ensures OnTable(stacks, c)
    {
      var k :| 0 <= k < |stacks[1..]| && c in stacks[1..][k];
      assert c in stacks[k + 1];
    }
    forall c | OnTable(stacks, c) && c !in stacks[0]
      ensures OnTable(stacks[1..], c)
    {
      var k :| 0 <= k < |stacks| && c in stacks[k];
      assert stacks[1..][k - 1] == stacks[k];
    }
  }

  /** `getOrganos`: every organ card lying in any stack, in table order. */
  function OrgansOf(stacks: seq<Stack>): (os: seq<Card>)
    ensures forall c :: c in os <==> IsOrgan(c) && OnTable(stacks, c)
  {
    if stacks == [] then []
    else
      OnTableCons(stacks);
      Filter(stacks[0], IsOrgan) + OrgansOf(stacks[1..])
  }

  /** The elements of `s` that pass the test, in order. */
  function Filter(s: seq<Card>, p: Card -> bool): (r: seq<Card>)
    ensures forall c :: c in r <==> c in s && p(c)
  {
    if s == [] then []
    else (if p(s[0]) then [s[0]] else []) + Filter(s[1..], p)
  }

  lemma FilterOrgansOfStack(s: Stack)
    requires WellFormedStack(s)
    ensures Filter(s, IsOrgan) == [s[0]]
  {
    CategoriesAreConstructors(s[0]);
    var t := s[1..];
    assert Filter(s, IsOrgan) == [s[0]] + Filter(t, IsOrgan);
    if |t| > 0 {
      CategoriesAreConstructors(t[0]);
      assert !IsOrgan(t[0]) && Filter(t, IsOrgan) == Filter(t[1..], IsOrgan);
      if |t| > 1 {
        CategoriesAreConstructors(t[1]);
        assert t[1..][1..] == [];
        assert !IsOrgan(t[1..][0]) && Filter(t[1..], IsOrgan) == Filter(t[1..][1..], IsOrgan);
      } else {
        assert t[1..] == [];
      }
    }
  }

  /** On well-formed stacks the organs on the table are exactly the stack
      heads: each stack holds its organ first and no other organ. */
  lemma {:induction false} OrgansAreHeads(stacks: seq<Stack>)
    requires forall k :: 0 <= k < |stacks| ==> WellFormedStack(stacks[k])
    ensures NonEmptyStacks(stacks) && OrgansOf(stacks) == Heads(stacks)
  {
    if stacks != [] {
      FilterOrgansOfStack(stacks[0]);
      OrgansAreHeads(stacks[1..]);
    }
  }

  /** The guard "that organ is already held" of the claim move agrees with the
      stack lookup. */
  lemma HeldIffFound(stacks: seq<Stack>, organ: Card)
    requires WellFormedStacks(stacks) && IsOrgan(organ)
    ensures organ in OrgansOf(stacks) <==> FindStack(stacks, organ).Ok?
  {
    OrgansAreHeads(stacks);
    if organ in Heads(stacks) {
      var k :| 0 <= k < |stacks| && Heads(stacks)[k] == organ;
      assert stacks[k][0] == organ;
    }
  }

  /** A hand as another player sees it: one hidden card per held card. */
  function Masked(hand: seq<Card>): (m: seq<Card>)
    ensures |m| == |hand|
    ensures forall k :: 0 <= k < |m| ==> m[k] == Hidden
  {
    seq(|hand|, _ => Hidden)
  }

  class Player {
    const auth: Auth
    var mano: seq<Card>
    var jugada: seq<Stack>

    function View(): Seat
      reads this
    {
      Seat(auth, mano, jugada)
    }

    function Name(): string
    {
      auth.playerId
    }

    /** A new player holds the given cards and has nothing on the table. */
    constructor(auth: Auth, cartas: seq<Card>)
      ensures View() == Seat(auth, cartas, [])
    {
      this.auth := auth;
      mano := cartas;
      jugada := [];
    }

    /** `addOrgano`: an organ becomes a new one-card stack at the end of the
        table; anything else is refused and nothing changes. */
    method AddOrgan(carta: Card) returns (r: Result<()>)
      modifies this
      ensures IsOrgan(carta) <==> r.Ok?
      ensures r.Ok? ==> jugada == old(jugada) + [[carta]]
      ensures r.Err? ==> r.error == NotAnOrganToAdd && jugada == old(jugada)
      ensures mano == old(mano)
    {
      if !IsOrgan(carta) {
        return Err(NotAnOrganToAdd);
      }
      jugada := jugada + [[carta]];
      return Ok(());
    }

    /** `setJugada`: the table becomes exactly `xs`; the hand stays. */
    method SetStacks(xs: seq<Stack>)
      modifies this
      ensures jugada == xs && mano == old(mano)
    {
      jugada := [];
      jugada := jugada + xs;
    }

    /** `quitaDeMano`: one copy of the card leaves the hand; a card not held
        is refused and nothing changes. */
    method RemoveFromHand(carta: Card) returns (r: Result<()>)
      modifies this
      ensures r.Ok? <==> carta in old(mano)
      ensures r.Ok? ==> |mano| == |old(mano)| - 1 && multiset(mano) == multiset(old(mano)) - multiset{carta}
      ensures r.Ok? ==> mano == RemoveFirst(old(mano), carta)
      ensures r.Err? ==> r.error == CardNotInHand && mano == old(mano)
      ensures jugada == old(jugada)
    {
      if carta in mano {
        RemoveFirstBag(mano, carta);
        mano := RemoveFirst(mano, carta);
        return Ok(());
      }
      return Err(CardNotInHand);
    }

    /** `getStatus`: the owner's credentials see the real hand, anyone else
        the same number of hidden cards; the table is always shown. */
    function Status(viewer: Auth, current: bool): (ps: PlayerStatus)
      reads this
      ensures ps.id == auth.playerId && ps.name == auth.playerId
      ensures viewer == auth ==> ps.hand == mano
      ensures viewer != auth ==> |ps.hand| == |mano| && forall k :: 0 <= k < |ps.hand| ==> ps.hand[k] == Hidden
      ensures ps.stacks == jugada && ps.current == current
    {
      PlayerStatus(auth.playerId, Name(), if auth == viewer then mano else Masked(mano), jugada, current)
    }
  }
}
