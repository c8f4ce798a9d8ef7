/** Values shared by the rule engines and the controller: players, turn tokens
    and what an engine reports after a move. */
module Types {

  datatype Option<+T> = None | Some(value: T)

  /** A display colour, eight bits per channel. */
  datatype Color = Rgb8(r: nat, g: nat, b: nat)

  /** A connected player. The name is the identity; the colour is only for display. */
  datatype User = User(name: string, color: Color)

  /** Proof that it is `user`'s turn to move. Only a rule engine makes one. */
  datatype TurnToken = TurnToken(user: User)

  /** A turn handed out by a rule engine: whose turn it is, and the snapshot of the
      game that this player is shown. The snapshot type `S` is the engine's own. */
  datatype PlayerTurn<S> = PlayerTurn(token: TurnToken, state: S)

  /** What a rule engine answers to a move. The two invalid outcomes carry the
      replacement turn, if the rotation still has anybody in it. */
  datatype PlayerMoveResult<S> =
    | Ok(turn: PlayerTurn<S>)
    | Win
    | Draw
    | InvalidMove(next: Option<PlayerTurn<S>>)
    | InvalidFormat(next: Option<PlayerTurn<S>>)
  {
    predicate IsInvalid() {
      InvalidMove? || InvalidFormat?
    }

    /** The replacement turn of an invalid outcome. */
    function Replacement(): Option<PlayerTurn<S>>
      requires IsInvalid()
    {
      next
    }
  }

  /** The error replies a client can receive for a rejected move. */
  datatype ClientError = InvalidMessageFormat | InvalidMoveError
}
