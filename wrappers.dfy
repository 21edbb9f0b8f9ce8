/** Error-as-value propagation used by every layer of the engine. */
module Wrappers {

  datatype Option<+T> = None | Some(value: T)

  /** Every distinct failure the engine reports, either as a returned error
      value or as an exception thrown out of it (marked below). */
  datatype Failure =
    | InvalidCard             // the string names no card
    | AlreadyStarted          // join or start after the turn pointer was set
    | PlayerExists            // join under a name already taken
    | NotAdmin                // start with the wrong admin password
    | NoPlayers               // start with nobody joined
    | UnknownPlayer           // no player of that name
    | BadCredentials          // the name exists but the password differs
    | NotYourTurn             // the caller is not the player at the turn pointer
    | GameOver                // the end flag is set
    | MustPlayOrDiscard       // pass with a full hand, or discard a card not held
    | NotPlayableOnPlayer     // only organs and total transplant go to a player
    | OrganOnlyToSelf         // an organ card may only be laid on oneself
    | OrganAlreadyHeld        // the actor already has that organ on the table
    | OnlyGlobalTreatments    // only all-discard and infection may be used
    | TargetNotOrgan          // a targeted card must name an organ
    | IllegalOpponentCard     // this card cannot be played on an opponent's organ
    | NotAnOrgan              // a stack can only be looked up by an organ card
    | NoSuchStack             // the player has no stack headed by that organ
    | TargetLacksOrgan        // the opponent has no stack headed by that organ
    | ActorLacksOrgan         // the actor has no stack headed by that organ
    | ImmuneTarget            // the targeted stack is immune
    | ActorHasOrgan           // the actor already has a stack of that organ
    | TargetHasOrgan          // the opponent already has a stack of that organ
    | NeedsTransplantCard     // a single transplant needs its card in hand
    | NotAdmitted             // the organ does not accept that card
    | OnlyMedicineOnSelf      // only medicines can be applied to one's own organs
    | MedicineDoesNotFit      // the organ does not accept that medicine
    | IncurableVirus          // the stack carries a virus this medicine cannot cure
    | AlreadyImmune           // the stack is immune already
    | CardNotInHand           // exception: removing a card that is not in the hand
    | NotAnOrganToAdd         // exception: adding a non-organ as a new stack
    | OutOfCards              // exception: drawing with deck and discard both empty

  datatype Result<+T> = Ok(value: T) | Err(error: Failure) {
    predicate IsFailure() { Err? }

    function PropagateFailure<U>(): Result<U>
      requires Err?
    {
      Err(error)
    }

    function Extract(): T
      requires Ok?
    {
      value
    }
  }
}
