/** The error texts the server sends back to clients. */
module ErrorMsg {
  const TokenMissingOrInvalid := "Token is missing or invalid"
  const AlreadyConnected := "Already connected"
  const AlreadyInRoom := "Already inside a room"
  const TournamentFull := "The tournament is full"
  const TournamentNotFound := "The tournament has not been found"
  const TournamentClosed := "The tournament is closed"
  const PlayerNotInTournament := "Player is not in the tournament"
  const PlayerAlreadyInTournament := "Player is already in the tournament"
  const UsernameAlreadyInUse := "The username is already used by someone else"
  const NotOwnerOfTournament := "You are not the owner of this tournament"
  const NotEnoughPlayerToClose := "Not enough players to close the tournament"
  const InvalidTournamentName := "Invalid tournament name"
  const InvalidTournamentSettings := "Invalid tournament settings"
  const AlreadyOwnerOfTournament := "Already owner of a tournament"
  const NoPlayerFound := "No player has been found"
  const PlayerIsNotInGame := "The player is not in a game"
  const CannotSpectate := "Something is preventing from spectating"
}
