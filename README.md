# Virus card game engine, modelled in Dafny

This project models the rules engine of the "Virus" card game server and proves
properties of it. The engine handles a match from creation to its end:

- players join three cards at a time;
- the admin starts the match;
- the player whose turn it is discards, passes or plays a card, and then draws.

The card catalogue (`Carta`), the player (`Player`) and the match (`VirusGame`)
are the three parts of the engine.

The model follows the structure of the source:

| module | file | models |
|---|---|---|
| `Wrappers` | `wrappers.dfy` | the `Either<String, T>` results, as `Result<T>` with one `Failure` constructor per error message |
| `Seqs` | `seqs.dfy` | the list operations the engine uses: `List.remove(Object)` (the first occurrence), `remove(int)`, first match, counting and the shuffle |
| `Cards` | `cards.dfy` | the 21 enum constants, their names, the category predicates, `from` and `admite` |
| `Stacks` | `stacks.dfy` | the organ stacks, `isInmune`, `jugadaSana`, `jugadaGanadora`, and the two scans of a stack's cards in `aOtroUnVirus` and `aSuCarta` |
| `Players` | `players.dfy` | the class `Player`, with its hand `mano`, its stacks `jugada` and its mutators, plus `getJugada(organo)`, `getOrganos` and `getStatus` |
| `Rules` | `rules.dfy` | the match as a value (`GameState`), together with what each move does to that value |
| `Infection` | `infection.dfy` | the infection treatment: the `while (posibleInfeccion(player))` loop and its search |
| `Moves` | `moves.dfy` | the public moves `tirar`, `usar`, `aplayer` and `acarta`, as relations between the state before, the result and the state after |
| `Game` | `game.dfy` | the class `VirusGame`: its fields `mazo`, `ozam`, `players`, `currentPlayer` and `finDeLaPartida`, and methods that update them in place |

Each method of `VirusGame` states its outcome in terms of the value-level rules,
applied to the state it started from. The lemmas about those rules carry the
global properties:

- **Card conservation.** `Bag` is the multiset of every card in the deck, the
  discard pile, the hands and the stacks. `CardCount` is the number that
  `invariantes` computes and compares with 65, and it equals the size of the bag.
- **Conserving moves.** A new match holds the 65 cards of `crearMazo`. Drawing,
  handing off, discarding, the global treatments, claiming an organ and theft
  keep the bag. So does a held virus, unless the hand-off after it finds no
  card to draw (see below).
- **Shape invariant.** `WellFormed` says:
  - every stack is one of `[O]`, `[O,V]`, `[O,M]` or `[O,M,M]`;
  - no player holds two stacks of the same organ;
  - player names are unique;
  - the turn pointer is -1 or a seat index.

  Every move keeps it.

Where a move loses or gains cards, the model keeps the source's behaviour. The
lemmas name the lost card:

- **Total transplant loses its card.** The card leaves the hand and never
  reaches the discard pile (`Rules.SwappedTablesLosesCard`).
- **A cure loses the cured virus.** The virus leaves the stack and is put
  nowhere (`Rules.MedicateKeeps`).
- **A single transplant loses the organ card.** After the swap, `acarta` removes
  the organ card from the hand. When the player holds a second copy of that
  organ, the copy is gone (`Moves.TransplantLosesOrgan`). Otherwise the move
  fails with `CardNotInHand` after the swap (`Moves.LateFailure`), unless the
  hand-off draws a copy of that organ, which is then the copy lost.
- **An unheld card still takes effect.** `acarta` checks a virus or medicine
  against the hand only after its effect, and the effect stays either way
  (`Moves.LateFailure`). When the card stays on the table (an infection or a
  protection), the turn is handed off and only then is the card looked for in
  the hand. Unless the hand-off draws a copy of it, the move fails with
  `CardNotInHand` and the bag has gained the card (`Moves.PlayOnCardUnheld`).
  When the hand-off does draw a copy, `quitaDeMano` removes that copy and the
  move succeeds with the bag unchanged.
  When the effect discards the card (a cancel, a destroy or a cure), `tirar`
  refuses the unheld card with `MustPlayOrDiscard`. The bag is then as the
  effect left it: unchanged, or without the cured virus.
- **A hand-off with nothing to draw counts a card twice.** When the deck and
  the discard pile are both empty, a virus or medicine that stays on the table
  is followed by the hand-off. Unless the actor's table is winning, so that the
  match ends with no draw, the hand-off throws in `cogeCarta` before
  `quitaDeMano`. The card is then on the table, a held one is still in the
  hand, and the count is one more than before (`Moves.PlayOnCardStranded`,
  `Moves.PlayOnCardHeld`). No other card meets this failure: `tirar` and the
  single transplant both put a card on the discard pile before the draw.
- **A join can lose cards.** A join that finds fewer than three cards in the
  deck and the discard pile draws them and then throws. Those cards are lost
  (`Game.JoinKeeps`).
- **A single transplant checks immunity on the target only.** The actor's own
  stack may be immune and is still exchanged (`Rules.Transplant`).

The card-in-hand check follows the code's order:

- `aplayer` removes the card from the hand before any effect, so an unheld card
  changes nothing;
- `usar` and the discarding path of `acarta` apply the effect first, and `tirar`
  then refuses the unheld card;
- the non-discarding path of `acarta` hands off first and then fails in
  `quitaDeMano`.

None of these is a precondition. Each is a modelled error path (`CardNotInHand`,
`MustPlayOrDiscard`), and the lemmas above state what the state holds when it
is taken.

Randomness becomes a choice the model leaves open. The shuffle is a method that
promises only a permutation. `start` takes the chosen first player as a
parameter, `pick`. The infection search tries opponents and organs in shuffled
order, so any opponent and organ on which the first playable virus lands may
be chosen.

## Model

| member | source | states |
|---|---|---|
| Seqs.RemoveFirstBag | src/main/java/com/computermind/virusgame/Player.java:69-74 | `List.remove(Object)` on a held element shortens the list by one and takes exactly one copy out of its multiset; on an element not held it changes nothing |
| Seqs.RemoveAtBag | src/main/java/com/computermind/virusgame/VirusGame.java:160 | removing the card at a position takes exactly that card out of the multiset |
| Seqs.RemoveFirstAt | src/main/java/com/computermind/virusgame/VirusGame.java:319 | removing a list by value removes the first equal element, which is the given position when no earlier element is equal |
| Seqs.FirstWhereIs | src/main/java/com/computermind/virusgame/VirusGame.java:380-386 | a position is the first match exactly when no earlier element matches and it does |
| Seqs.CountRemoveAt | src/main/java/com/computermind/virusgame/VirusGame.java:383 | removing one element lowers the number of elements with a property by one if that element has it, otherwise not at all |
| Seqs.Shuffle | src/main/java/com/computermind/virusgame/VirusGame.java:158 | `Collections.shuffle` returns a permutation of its input (same multiset) |
| Seqs.ShuffledPositions | src/main/java/com/computermind/virusgame/VirusGame.java:257-259 | a shuffled list of seat positions names exactly the seats, each in range |
| Cards.CategoriesAreConstructors | src/main/java/com/computermind/virusgame/Carta.java:46-56 | `isOrgano`, `isMedicina` and `isVirus` hold exactly for the organ, medicine and virus constants, which are disjoint; `isComodin` holds exactly for the three `COMODIN` constants |
| Cards.CatalogueIsTheEnum | src/main/java/com/computermind/virusgame/Carta.java:12-36 | the catalogue has 21 constants, every card is one of them, and each category holds exactly its five cards; treatments and `OCULTA` are in none |
| Cards.SplitJoin | src/main/java/com/computermind/virusgame/Carta.java:86-94 | splitting a name joined with `_` from parts free of `_` gives back those parts |
| Cards.SplitName | src/main/java/com/computermind/virusgame/Carta.java:86-94 | splitting an enum name on `_` gives its category word and, for tagged cards, its tag word |
| Cards.NamesDistinct | src/main/java/com/computermind/virusgame/Carta.java:12-36 | two cards with the same enum name are the same card |
| Cards.CatalogueDistinct | src/main/java/com/computermind/virusgame/Carta.java:12-36 | no constant appears twice in the catalogue |
| Cards.AllInCatalogue | src/main/java/com/computermind/virusgame/Carta.java:12-36 | every card value is in the catalogue |
| Cards.FindByName | src/main/java/com/computermind/virusgame/Carta.java:58-64 | the search finds a card of the list with the given name, or reports that no card of the list has it |
| Cards.From | src/main/java/com/computermind/virusgame/Carta.java:58-64 | `from` succeeds exactly when the string is some card's name and returns that card; a null or unknown string is the invalid-card error |
| Cards.FromName | src/main/java/com/computermind/virusgame/Carta.java:58-64 | `from(c.name())` returns `c` for every card (round trip) |
| Cards.AdmitsByNameIsAdmits | src/main/java/com/computermind/virusgame/Carta.java:86-94 | `admite`, written over the split names, equals the table over categories and tags |
| Cards.AdmitsOnlyCategoryPairs | src/main/java/com/computermind/virusgame/Carta.java:86-93 | `admite` holds only for organ/virus, organ/medicine, virus/medicine and medicine/virus pairs; organs never admit organs; treatments and `OCULTA` admit and are admitted by nothing |
| Cards.AdmitsByTag | src/main/java/com/computermind/virusgame/Carta.java:92 | for an allowed pair, `admite` holds iff one card is a wildcard or both tags are equal |
| Cards.AdmitsSymmetricOnVirusAndMedicine | src/main/java/com/computermind/virusgame/Carta.java:90-92 | a virus admits a medicine exactly when the medicine admits the virus |
| Stacks.CountSmall | src/main/java/com/computermind/virusgame/VirusGame.java:79-81 | a count over a stack of at most three cards is the sum over its three positions, as `isInmune` counts them |
| Stacks.ImmuneIsThreeCards | src/main/java/com/computermind/virusgame/VirusGame.java:79-81 | on a well-formed stack, `isInmune` (more than two cards, one organ, two medicines) holds exactly for stacks of three cards |
| Stacks.HealthyShapes | src/main/java/com/computermind/virusgame/VirusGame.java:83-85 | on a well-formed stack, `jugadaSana` (non-empty, no virus) holds exactly for a lone organ or an organ with medicine |
| Stacks.AppendStackKeeps | src/main/java/com/computermind/virusgame/VirusGame.java:320 | appending a stack of an organ the player lacks keeps the player's table well formed |
| Stacks.RemoveStackKeeps | src/main/java/com/computermind/virusgame/VirusGame.java:319 | removing a stack keeps the table well formed and its organs distinct |
| Stacks.UpdateStackKeeps | src/main/java/com/computermind/virusgame/VirusGame.java:369 | replacing a stack by a well-formed stack with the same organ keeps the table well formed |
| Stacks.Heads | src/main/java/com/computermind/virusgame/Player.java:38-40 | the first card of each stack, in order |
| Stacks.ScanForHit | src/main/java/com/computermind/virusgame/VirusGame.java:355-368 | the loop of `aOtroUnVirus` stops at the first medicine or virus of the stack, or at its end |
| Stacks.VirusOnShapes | src/main/java/com/computermind/virusgame/VirusGame.java:355-372 | a virus on `[O]` infects it, on `[O,M]` cancels the medicine, on `[O,V]` destroys the stack; what remains is well formed |
| Stacks.FirstCure | src/main/java/com/computermind/virusgame/VirusGame.java:380-386 | the first card of the stack that is a virus the medicine cures (any virus on the wildcard organ) |
| Stacks.ScanForCure | src/main/java/com/computermind/virusgame/VirusGame.java:380-386 | the loop of `aSuCarta` stops at exactly that first curable virus, or at the end |
| Stacks.MedicineOnShapes | src/main/java/com/computermind/virusgame/VirusGame.java:375-398 | on a well-formed stack a fitting medicine cures `[O,V]`, protects `[O]` and `[O,M]`, and is refused by an immune `[O,M,M]`; the incurable-virus error never happens; the result is well formed |
| Players.FindStack | src/main/java/com/computermind/virusgame/Player.java:55-63 | `getJugada(organo)` fails for a non-organ, fails when no stack starts with the organ, and otherwise returns the first stack that starts with it |
| Players.OrgansOf | src/main/java/com/computermind/virusgame/Player.java:38-40 | `getOrganos` yields exactly the organ cards lying on the player's stacks |
| Players.OrgansAreHeads | src/main/java/com/computermind/virusgame/Player.java:38-40 | on a well-formed table the organs are exactly the first cards of the stacks, in order |
| Players.HeldIffFound | src/main/java/com/computermind/virusgame/Player.java:38-63 | an organ is among `getOrganos` exactly when `getJugada` finds its stack |
| Players.Masked | src/main/java/com/computermind/virusgame/Player.java:32 | the concealed hand has the hand's length and only `OCULTA` cards |
| Players.Player.constructor | src/main/java/com/computermind/virusgame/Player.java:22-26 | a new player holds the given cards and has no stacks |
| Players.Player.AddOrgan | src/main/java/com/computermind/virusgame/Player.java:42-48 | `addOrgano` appends the stack `[carta]` exactly when the card is an organ, fails otherwise without change, and never touches the hand |
| Players.Player.SetStacks | src/main/java/com/computermind/virusgame/Player.java:50-53 | after `setJugada(xs)` the stacks are `xs` and the hand is unchanged |
| Players.Player.RemoveFromHand | src/main/java/com/computermind/virusgame/Player.java:69-74 | `quitaDeMano` succeeds exactly when the card is held, then removes its first copy (one copy fewer in the multiset); it fails without change otherwise; stacks are untouched |
| Players.Player.Status | src/main/java/com/computermind/virusgame/Player.java:28-36 | the owner's credentials see the real hand, anyone else a hand of `OCULTA` of the same length; the stacks and the turn flag are always shown |
| Rules.CardCountIsBagSize | src/main/java/com/computermind/virusgame/VirusGame.java:400-408 | the total that `invariantes` computes is the number of cards in the match's bag |
| Rules.StacksBagRemoveAt | src/main/java/com/computermind/virusgame/VirusGame.java:319 | removing a stack takes exactly its cards out of the table's bag |
| Rules.BagWithHand | src/main/java/com/computermind/virusgame/VirusGame.java:400-408 | replacing a hand changes the bag by exactly the difference between the two hands |
| Rules.BagWithStacks | src/main/java/com/computermind/virusgame/VirusGame.java:400-408 | replacing a table changes the bag by exactly the difference between the two tables |
| Rules.WellFormedWithHand | src/main/java/com/computermind/virusgame/Player.java:69-74 | changing a hand keeps the shape invariant |
| Rules.FindSeat | src/main/java/com/computermind/virusgame/VirusGame.java:91-96 | `player(id)` finds the first seat with that name, and fails exactly when no seat has it |
| Rules.FindSeatUnique | src/main/java/com/computermind/virusgame/VirusGame.java:136-138 | with unique names, looking up a seat's own name finds that seat |
| Rules.Actor | src/main/java/com/computermind/virusgame/VirusGame.java:140-146 | `asCurrentPlayer` followed by `isJugando` succeeds only for the seat at the turn pointer whose credentials match, and never once the match has ended |
| Rules.ActorCases | src/main/java/com/computermind/virusgame/VirusGame.java:132-146 | the actor check succeeds iff the pointer's seat has these credentials and the match is on; an unknown name, wrong password or another player's turn each yields its own error |
| Rules.ActorOnSameTable | src/main/java/com/computermind/virusgame/VirusGame.java:230-232 | an effect that keeps the seating, the pointer and the end flag keeps the outcome of the actor check, so `tirar` after `usar` sees the same actor |
| Rules.DrewKeepsCards | src/main/java/com/computermind/virusgame/VirusGame.java:152-161 | a draw takes exactly the drawn card out of deck and discard together, and needs one of them non-empty |
| Rules.HandOffKeeps | src/main/java/com/computermind/virusgame/VirusGame.java:185-195 | the hand-off keeps the bag and the shape; the match is won exactly when the actor's table is winning; otherwise the hand grows by one and the pointer stays a seat index; its only failure is running out of cards, with no change |
| Rules.DrawnKeeps | src/main/java/com/computermind/virusgame/VirusGame.java:188-190 | adding the drawn card to the hand keeps the bag and the shape |
| Rules.Discarded | src/main/java/com/computermind/virusgame/VirusGame.java:176-178 | discarding a held card appends it to the discard pile, takes one copy out of the hand, and changes nothing else |
| Rules.DiscardedKeeps | src/main/java/com/computermind/virusgame/VirusGame.java:176-178 | discarding keeps the bag and the shape |
| Rules.TossedKeeps | src/main/java/com/computermind/virusgame/VirusGame.java:171-183 | a discard or pass followed by the hand-off keeps the bag and the shape |
| Rules.Claimed | src/main/java/com/computermind/virusgame/VirusGame.java:209-212 | claiming an organ takes it out of the hand and adds the stack `[organ]` to the actor's table, nothing else |
| Rules.ClaimedKeeps | src/main/java/com/computermind/virusgame/VirusGame.java:204-212 | a claim of an organ the actor lacks keeps the bag and the shape |
| Rules.NewStackKeeps | src/main/java/com/computermind/virusgame/Player.java:42-48 | adding a new organ stack keeps the shape and adds exactly that organ to the bag |
| Rules.SwappedTables | src/main/java/com/computermind/virusgame/VirusGame.java:209-217 | the total transplant takes its card out of the hand and exchanges the two tables, nothing else |
| Rules.SwapKeeps | src/main/java/com/computermind/virusgame/VirusGame.java:215-217 | exchanging two tables keeps the bag and the shape |
| Rules.DropKeeps | src/main/java/com/computermind/virusgame/Player.java:69-74 | dropping a held card from the hand keeps the shape and takes exactly that card out of the bag |
| Rules.SwappedTablesLosesCard | src/main/java/com/computermind/virusgame/VirusGame.java:209-217 | the total transplant keeps the shape but the bag loses the transplant card |
| Rules.EmptiedHands | src/main/java/com/computermind/virusgame/VirusGame.java:281-285 | every hand but the actor's is empty and every seat is otherwise unchanged |
| Rules.OthersDiscarded | src/main/java/com/computermind/virusgame/VirusGame.java:280-288 | the all-discard treatment keeps the seating, the pointer and the end flag |
| Rules.DiscardedUpToSeats | src/main/java/com/computermind/virusgame/VirusGame.java:281-285 | after `k` rounds of the loop the first `k` seats have been emptied (the actor's excepted), the rest are untouched |
| Rules.DiscardedUpToDiscard | src/main/java/com/computermind/virusgame/VirusGame.java:281-285 | after `k` rounds of the loop the discard pile has gained the hands of the first `k` other players, in order |
| Rules.DiscardedUpToEnds | src/main/java/com/computermind/virusgame/VirusGame.java:280-288 | the loop run to the end is the all-discard treatment |
| Rules.EmptiedHandsBag | src/main/java/com/computermind/virusgame/VirusGame.java:281-285 | emptying the other hands takes exactly their cards out of the seats' bag |
| Rules.OthersDiscardedKeeps | src/main/java/com/computermind/virusgame/VirusGame.java:280-288 | the all-discard treatment keeps the bag and the shape, leaves the actor's seat alone and empties every other hand |
| Rules.PlaceVirus | src/main/java/com/computermind/virusgame/VirusGame.java:350-373 | `aOtroUnVirus` succeeds exactly when the virus lands; only the target's table and the discard pile change; its errors are non-organ, missing stack, not admitted and immune |
| Rules.PlaceVirusCases | src/main/java/com/computermind/virusgame/VirusGame.java:350-373 | the outcome on each stack shape: missing stack, not admitted, immune `[O,M,M]`, cancelled `[O,M]`, destroyed `[O,V]`, infected `[O]` |
| Rules.PlaceVirusKeeps | src/main/java/com/computermind/virusgame/VirusGame.java:350-373 | a landed virus keeps the shape; when it is to be discarded the bag is unchanged, and when it stays on the table the bag gains the virus until it leaves the hand |
| Rules.CutKeeps | src/main/java/com/computermind/virusgame/VirusGame.java:383 | cutting a two-card stack back to its organ keeps the shape and takes the second card out of the bag |
| Rules.CancelKeeps | src/main/java/com/computermind/virusgame/VirusGame.java:359-360 | a medicine moved from the stack to the discard pile keeps the bag and the shape |
| Rules.DestroyKeeps | src/main/java/com/computermind/virusgame/VirusGame.java:365-366 | a stack moved whole to the discard pile keeps the bag and the shape |
| Rules.GrowKeeps | src/main/java/com/computermind/virusgame/VirusGame.java:369 | a virus appended to a lone organ keeps the shape and adds the virus to the bag |
| Rules.Stolen | src/main/java/com/computermind/virusgame/VirusGame.java:319-320 | a theft moves a stack, leaving every hand and the discard pile alone |
| Rules.Steal | src/main/java/com/computermind/virusgame/VirusGame.java:312-324 | `aOtroRobar` fails when the target lacks the organ, when its stack is immune, or when the actor already has the organ; on success the card is discarded afterwards and no hand changes |
| Rules.StolenKeeps | src/main/java/com/computermind/virusgame/VirusGame.java:319-320 | a theft keeps the bag and the shape, gives the actor one more stack and the target one fewer |
| Rules.StealKeeps | src/main/java/com/computermind/virusgame/VirusGame.java:312-324 | a successful `aOtroRobar` keeps the bag and the shape |
| Rules.Transplanted | src/main/java/com/computermind/virusgame/VirusGame.java:337-344 | the single transplant puts its card from the hand onto the discard pile and exchanges the two stacks; no other hand changes |
| Rules.Transplant | src/main/java/com/computermind/virusgame/VirusGame.java:326-348 | `aOtroTransplanta` applies its guards in order (transplant card held, target lacks my organ, I lack theirs, both stacks exist, target not immune); on success only the actor's hand loses the transplant card, which goes on top of the discard pile, and the organ card is not marked for discarding |
| Rules.ExchangeStackKeeps | src/main/java/com/computermind/virusgame/VirusGame.java:341-344 | removing a stack and appending another keeps a table well formed and changes its bag by the two stacks |
| Rules.ExchangedKeeps | src/main/java/com/computermind/virusgame/VirusGame.java:341-344 | exchanging two players' stacks keeps the bag and the shape |
| Rules.HandToDiscardKeeps | src/main/java/com/computermind/virusgame/VirusGame.java:337-339 | moving a held card from the hand to the discard pile keeps the bag and the shape |
| Rules.TransplantedKeeps | src/main/java/com/computermind/virusgame/VirusGame.java:337-344 | the single transplant keeps the bag and the shape |
| Rules.TransplantKeeps | src/main/java/com/computermind/virusgame/VirusGame.java:326-348 | a successful `aOtroTransplanta` keeps the bag and the shape |
| Rules.Medicate | src/main/java/com/computermind/virusgame/VirusGame.java:375-398 | `aSuCarta` changes only the actor's table; its errors are not a medicine, not fitting, no stack, incurable virus and already immune |
| Rules.MedicateCases | src/main/java/com/computermind/virusgame/VirusGame.java:375-398 | the outcome of `aSuCarta` on each case and stack shape; the incurable-virus error never happens on a well-formed table |
| Rules.MedicateKeeps | src/main/java/com/computermind/virusgame/VirusGame.java:375-398 | a medicine keeps the shape; a cure takes the cured virus out of the bag (it is lost); a protection adds the medicine until it leaves the hand |
| Rules.OnOpponent | src/main/java/com/computermind/virusgame/VirusGame.java:299-310 | `aOtroCarta` keeps the seating, the pointer and the end flag |
| Infection.Spreads | src/main/java/com/computermind/virusgame/VirusGame.java:264-278 | one success of the search keeps the seating, the pointer and the end flag |
| Infection.BlockedStep | src/main/java/com/computermind/virusgame/VirusGame.java:247-252 | the inner loop advances past a card that is not a playable virus |
| Infection.NoneReachedAll | src/main/java/com/computermind/virusgame/VirusGame.java:254-262 | when no player in the shuffled order accepts the virus, it can be played on no one |
| Infection.LandedKeeps | src/main/java/com/computermind/virusgame/VirusGame.java:268-276 | the virus's effect on the target, with the virus discarded when the effect says so, keeps the shape and changes the bag by exactly the virus |
| Infection.SpreadKeeps | src/main/java/com/computermind/virusgame/VirusGame.java:264-278 | one move of the infection keeps the bag and the shape, changes no hand, and takes exactly one virus off the actor's table |
| Infection.VirusLeavesKeeps | src/main/java/com/computermind/virusgame/VirusGame.java:273 | the virus leaving the actor's stack keeps the stack well formed |
| Infection.ReplayKeeps | src/main/java/com/computermind/virusgame/VirusGame.java:235-238 | a run of the infection loop keeps the bag and the shape, changes no hand, and each move removes one virus from the actor's table, so the loop ends |
| Infection.ReplaySnoc | src/main/java/com/computermind/virusgame/VirusGame.java:235-238 | one more round of the loop extends the run by the move it makes |
| Infection.NoSpreadIffNoFit | src/main/java/com/computermind/virusgame/VirusGame.java:240-245 | the loop stops exactly when no virus of the actor can be played on any opponent |
| Infection.FindOrgan | src/main/java/com/computermind/virusgame/VirusGame.java:264-278 | the organ loop finds an organ on which the virus lands, or proves that it lands on none |
| Infection.FindTarget | src/main/java/com/computermind/virusgame/VirusGame.java:254-262 | the player loop finds an opponent and organ for this virus, or proves there is none |
| Infection.FindInStack | src/main/java/com/computermind/virusgame/VirusGame.java:247-252 | the card loop finds the first playable virus of the stack, or proves there is none |
| Infection.FindSpread | src/main/java/com/computermind/virusgame/VirusGame.java:240-245 | the stack loop returns the move the search makes, or proves that no virus can be played |
| Moves.TossKeeps | src/main/java/com/computermind/virusgame/VirusGame.java:171-183 | `tirar` keeps the bag and the shape; it is refused exactly when the named card is not held, or no card is named and three are held, and then nothing changes; its errors are the actor errors, that refusal and running out of cards |
| Moves.LayCheck | src/main/java/com/computermind/virusgame/VirusGame.java:201-209 | the checks of `aplayer`: the actor, a held organ the actor lacks played on themself, or the total transplant played on a known player |
| Moves.LayOnPlayerKeeps | src/main/java/com/computermind/virusgame/VirusGame.java:201-224 | `aplayer` keeps the shape; a failed check changes nothing; an organ keeps the bag; a total transplant loses its card |
| Moves.UseKeeps | src/main/java/com/computermind/virusgame/VirusGame.java:226-233 | `usar` keeps the bag and the shape, and refuses every card but the two global treatments without change |
| Moves.CardCheck | src/main/java/com/computermind/virusgame/VirusGame.java:290-295 | the checks of `acarta`: the actor, an organ as target card, a known player; the errors are exactly those checks' |
| Moves.Effect | src/main/java/com/computermind/virusgame/VirusGame.java:294-310 | the effect of `acarta` keeps the seating and never fails with a hand or draw error |
| Moves.EffectCards | src/main/java/com/computermind/virusgame/VirusGame.java:294-398 | what each effect does to the bag: a discarded virus or a theft keeps it, a cure loses a virus, a card left on the table is counted twice until it leaves the hand, a transplant keeps it |
| Moves.EffectKeepsShape | src/main/java/com/computermind/virusgame/VirusGame.java:294-398 | every effect keeps the shape invariant |
| Moves.UnheldCards | src/main/java/com/computermind/virusgame/VirusGame.java:296 | the hand-off followed by `quitaDeMano` keeps the shape; it fails only when out of cards or when the card is not held |
| Moves.PlayOnCardKeeps | src/main/java/com/computermind/virusgame/VirusGame.java:290-297 | `acarta` keeps the shape; a failed check or effect changes nothing |
| Moves.PlayOnCardHeld | src/main/java/com/computermind/virusgame/VirusGame.java:290-373 | a held virus or theft played by `acarta` keeps the bag, except when the hand-off runs out of cards: then it is a virus, still in the hand, and the bag has gained it |
| Moves.PlayOnCardStranded | src/main/java/com/computermind/virusgame/VirusGame.java:290-297 | an `acarta` that fails for want of cards played a virus or medicine whose effect kept it; the state is that effect's, with both piles empty, the actor's hand unchanged, and the bag and the count one card more |
| Moves.LateFailure | src/main/java/com/computermind/virusgame/VirusGame.java:290-297 | `acarta` fails with a hand or draw error only after its checks and its effect have succeeded |
| Moves.PlayOnCardUnheld | src/main/java/com/computermind/virusgame/VirusGame.java:290-297 | an unheld virus or medicine still takes effect: the bag and the count grow by that card |
| Moves.TransplantLosesOrgan | src/main/java/com/computermind/virusgame/VirusGame.java:296 | a successful single transplant loses a copy of the organ card from the bag |
| Game.Repeat | src/main/java/com/computermind/virusgame/VirusGame.java:51-76 | a group written `n` times has `n` times its length |
| Game.NewDeck | src/main/java/com/computermind/virusgame/VirusGame.java:45-77 | the deck as `crearMazo` builds it has 65 cards |
| Game.DeckComposition | src/main/java/com/computermind/virusgame/VirusGame.java:45-77 | the new deck holds 1 total transplant, 1 all-discard, 2 infections, 3 thefts, 3 single transplants, one wildcard of each category, 4 of each typed virus and medicine, 5 of each typed organ, and no hidden card |
| Game.ThreeDraws | src/main/java/com/computermind/virusgame/VirusGame.java:148-150 | three draws take exactly the three cards out of deck and discard |
| Game.NewcomerKeeps | src/main/java/com/computermind/virusgame/VirusGame.java:98-107 | a newcomer with a fresh name and no stacks keeps the shape |
| Game.JoinKeeps | src/main/java/com/computermind/virusgame/VirusGame.java:98-107 | a join keeps the shape; a successful one keeps the bag and seats the newcomer last; one that runs out of cards loses what was left in the piles; any other failure changes nothing |
| Game.Statuses | src/main/java/com/computermind/virusgame/VirusGame.java:163-169 | one status per player, in order, each with the turn flag of that player |
| Game.TransplantChecks | src/main/java/com/computermind/virusgame/VirusGame.java:326-336 | the guards of `aOtroTransplanta`, run in order: a failure is the rule's failure, a success finds both stacks |
| Game.LayChecks | src/main/java/com/computermind/virusgame/VirusGame.java:201-208 | the guards of `aplayer`: a failure is the rule's failure, a success names both seats and a playable card |
| Game.CardChecks | src/main/java/com/computermind/virusgame/VirusGame.java:290-295 | the guards of `acarta` give exactly the rule's result |
| Game.VirusGame.CreateDeck | src/main/java/com/computermind/virusgame/VirusGame.java:45-77 | `crearMazo`'s three loops build the 65-card deck, then the shuffle permutes it |
| Game.VirusGame.constructor | src/main/java/com/computermind/virusgame/VirusGame.java:36-43 | a new match is well formed, has the 65-card deck, an empty discard pile, no players, pointer -1, not ended, and `invariantes` counts 65 |
| Game.VirusGame.Draw | src/main/java/com/computermind/virusgame/VirusGame.java:152-161 | `cogeCarta` fails exactly when deck and discard are both empty; otherwise it refills the deck from the discard pile if empty and takes the first card |
| Game.DrewThreeKeeps | src/main/java/com/computermind/virusgame/VirusGame.java:148-161 | three successive `cogeCarta` draws take exactly the hand out of deck and discard; with three cards in the deck the hand is its first three and the discard pile is untouched |
| Game.VirusGame.DrawThree | src/main/java/com/computermind/virusgame/VirusGame.java:148-150 | `coge3cartas` succeeds exactly when three cards are available; its three cards are three successive `cogeCarta` draws (`DrewThree`), taken out of the piles |
| Game.VirusGame.SitDown | src/main/java/com/computermind/virusgame/VirusGame.java:103 | a new player object with the given hand sits last |
| Game.VirusGame.Join | src/main/java/com/computermind/virusgame/VirusGame.java:98-107 | `join` has the outcome `Joined`: refused once started or for a taken name, otherwise the newcomer sits last with a hand of three successive draws (`DrewThree`) |
| Game.VirusGame.Start | src/main/java/com/computermind/virusgame/VirusGame.java:113-122 | `start` succeeds exactly with the admin password, before the start and with a player; each error case is its own, with no change; on success the pointer is the chosen seat |
| Game.VirusGame.HandOff | src/main/java/com/computermind/virusgame/VirusGame.java:185-195 | `ganaOrobayturno` on the object has the outcome `HandedOff` |
| Game.VirusGame.AddToHand | src/main/java/com/computermind/virusgame/VirusGame.java:189 | the drawn card is appended to the player's hand |
| Game.VirusGame.DiscardCard | src/main/java/com/computermind/virusgame/VirusGame.java:176-178 | the discard on the object is `Discarded` |
| Game.VirusGame.Toss | src/main/java/com/computermind/virusgame/VirusGame.java:171-183 | `tirar` on the object has the outcome `Moves.Toss` |
| Game.VirusGame.DiscardAndHandOff | src/main/java/com/computermind/virusgame/VirusGame.java:175-181 | the body of `tirar` after its guard: the optional discard, then the hand-off |
| Game.VirusGame.SetStack | src/main/java/com/computermind/virusgame/VirusGame.java:369 | one stack of a player is replaced in place |
| Game.VirusGame.DropStack | src/main/java/com/computermind/virusgame/VirusGame.java:366 | one stack of a player is removed by value |
| Game.VirusGame.OnVirus | src/main/java/com/computermind/virusgame/VirusGame.java:350-373 | `aOtroUnVirus` on the object has the outcome of `PlaceVirus` |
| Game.VirusGame.LandVirus | src/main/java/com/computermind/virusgame/VirusGame.java:355-372 | the scan and its effect on the object are `Landed` |
| Game.VirusGame.OnOwnCard | src/main/java/com/computermind/virusgame/VirusGame.java:375-398 | `aSuCarta` on the object has the outcome of `Medicate` |
| Game.VirusGame.TreatStack | src/main/java/com/computermind/virusgame/VirusGame.java:380-397 | the scan and its effect on the object are `Treated` |
| Game.VirusGame.StealMove | src/main/java/com/computermind/virusgame/VirusGame.java:312-324 | `aOtroRobar` on the object has the outcome of `Steal` |
| Game.VirusGame.MoveStack | src/main/java/com/computermind/virusgame/VirusGame.java:319-320 | the theft on the object is `Stolen` |
| Game.VirusGame.AppendStack | src/main/java/com/computermind/virusgame/VirusGame.java:320 | a stack is appended to a player's table |
| Game.VirusGame.TransplantMove | src/main/java/com/computermind/virusgame/VirusGame.java:326-348 | `aOtroTransplanta` on the object has the outcome of `Transplant` |
| Game.VirusGame.DoTransplant | src/main/java/com/computermind/virusgame/VirusGame.java:337-344 | the transplant on the object is `Transplanted` |
| Game.VirusGame.Exchange | src/main/java/com/computermind/virusgame/VirusGame.java:341-344 | the two stacks are removed and appended crosswise |
| Game.VirusGame.ReplaceStack | src/main/java/com/computermind/virusgame/VirusGame.java:341-344 | one stack is removed by value and another appended |
| Game.VirusGame.OnOpponentCard | src/main/java/com/computermind/virusgame/VirusGame.java:299-310 | `aOtroCarta` on the object has the outcome of `OnOpponent` |
| Game.VirusGame.DiscardOthers | src/main/java/com/computermind/virusgame/VirusGame.java:280-288 | the loop of `usarDescarte` yields `OthersDiscarded` |
| Game.VirusGame.EmptyOtherHand | src/main/java/com/computermind/virusgame/VirusGame.java:282-285 | one round of that loop: another player's hand goes to the discard pile, the actor's stays |
| Game.VirusGame.EmptyHand | src/main/java/com/computermind/virusgame/VirusGame.java:283-284 | a hand is appended to the discard pile and cleared |
| Game.VirusGame.ApplySpread | src/main/java/com/computermind/virusgame/VirusGame.java:268-276 | one move of the infection on the object is `Spreads` |
| Game.VirusGame.TakeBack | src/main/java/com/computermind/virusgame/VirusGame.java:271-274 | the virus is discarded when the effect says so and leaves the actor's stack |
| Game.VirusGame.Discard | src/main/java/com/computermind/virusgame/VirusGame.java:283 | cards are appended to the discard pile |
| Game.VirusGame.Infect | src/main/java/com/computermind/virusgame/VirusGame.java:235-238 | `usarInfeccion` runs the loop to its end: a complete run `Infected`, whose final state is the replay of its moves |
| Game.VirusGame.SpreadOnce | src/main/java/com/computermind/virusgame/VirusGame.java:240-245 | `posibleInfeccion` makes the first move when there is one, with one virus fewer on the actor's table, and otherwise proves no move exists and changes nothing |
| Game.VirusGame.Use | src/main/java/com/computermind/virusgame/VirusGame.java:226-233 | `usar` on the object has the outcome `Moves.Use` |
| Game.VirusGame.LayOnPlayer | src/main/java/com/computermind/virusgame/VirusGame.java:201-224 | `aplayer` on the object has the outcome `Moves.LayOnPlayer` |
| Game.VirusGame.LayAndHandOff | src/main/java/com/computermind/virusgame/VirusGame.java:207-223 | after the checks: an unheld card fails without change, a held one takes effect and the hand-off follows |
| Game.VirusGame.LayCard | src/main/java/com/computermind/virusgame/VirusGame.java:209-217 | `quitaDeMano`, then the organ claim or the total transplant: exactly when the card is held |
| Game.VirusGame.DropFromHand | src/main/java/com/computermind/virusgame/VirusGame.java:209 | `quitaDeMano` on the object: it succeeds exactly when held, and removes the first copy |
| Game.VirusGame.AddStack | src/main/java/com/computermind/virusgame/VirusGame.java:212 | `addOrgano` on the object appends the stack `[organ]` |
| Game.VirusGame.Swap | src/main/java/com/computermind/virusgame/VirusGame.java:215-217 | the two players' tables are exchanged, and a transplant with oneself changes nothing |
| Game.VirusGame.PlayOnCard | src/main/java/com/computermind/virusgame/VirusGame.java:290-297 | `acarta` on the object has the outcome `Moves.PlayOnCard` |
| Game.VirusGame.PlayChecked | src/main/java/com/computermind/virusgame/VirusGame.java:294-296 | after the checks: a failed effect changes nothing, a discarding effect is followed by `tirar`, a staying effect by the hand-off and `quitaDeMano` |
| Game.VirusGame.Apply | src/main/java/com/computermind/virusgame/VirusGame.java:294-295 | the effect on the object has the outcome of `Effect` |
| Game.VirusGame.HandOffThenDrop | src/main/java/com/computermind/virusgame/VirusGame.java:296 | the hand-off, then `quitaDeMano` of the played card, as `HandedOff` and `Unheld` |
| Game.VirusGame.Status | src/main/java/com/computermind/virusgame/VirusGame.java:163-169 | `status` shows the end flag and one entry per player; the viewer's own hand is shown and every other hand is concealed with its length; once started, exactly the player at the pointer is marked current |

## Left out

- Messages: the message log (`messages`, `msg`) and the Spanish texts are left out. Error messages are `Failure` constructors, not strings.
- Concurrency: `CopyOnWriteArrayList` is there for concurrent requests. The model is sequential and lists are `seq`.
- Credentials: `Auth` is a pair of name and password compared for equality. `isAdmin`/`asAdmin` is an equality test on the match password.
- Output: `invariantes` prints to the error stream. The model states its count as `CardCount` and proves what it equals instead.
- Randomness: `Collections.shuffle` and `Math.random` are not modelled as generators. The shuffle promises a permutation and the first player is a parameter.
- Seqs.Shuffle: its body returns its input unchanged. Callers rely only on its contract, which is the permutation the source promises. So no property of the model depends on the order produced.
- Search then move: the infection search is modelled first and the move applied afterwards, with the same result as the source's search-and-apply in one pass. The same goes for the scans of `aOtroUnVirus` and `aSuCarta`.
- Infection run: the moves made by the infection loop are a ghost out-parameter of `Infect`. The loop's termination is proved through `VirusesOn`.
- Object identity: the source compares players by reference (`p != player`, `players.get(currentPlayer) == e`). The model compares seat indices and requires the player objects to be distinct.
- Unreachable branch: the `not implemented` exception in `aplayer` cannot be reached after its guards, so it is not modelled.
- Null card: `tirar` with a `null` card is `None`. `from(null)` is `None`.
- Card texts: `Carta.getName`, `getHelp` and the display texts are not part of this model.
- Service layer: `VirusGameService`, `Controller`, `Resp`, `GameStatus` and `PlayerStatus` are not part of this model.
