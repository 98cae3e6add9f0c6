/**
 * Tournament settings: the shape check applied to incoming payloads and the
 * stricter validation applied when a tournament is created.
 */
module TournamentSettings {
  import opened Common
  import opened Json
  import opened GameElements

  /** Settings whose two fields are numbers (the shape check has passed). */
  datatype Settings = Settings(maxPlayerCount: real, scoreToWin: real)

  /** `isTournamentSettings`: only checks that both fields are numbers. */
  predicate IsTournamentSettings(j: Json)
  {
    IsNumberAt(j, "maxPlayerCount") && IsNumberAt(j, "scoreToWin")
  }

  function DecodeSettings(j: Json): (s: Settings)
    requires IsTournamentSettings(j)
    ensures Get(j, "maxPlayerCount") == Some(JNum(s.maxPlayerCount))
    ensures Get(j, "scoreToWin") == Some(JNum(s.scoreToWin))
  {
    Settings(NumAt(j, "maxPlayerCount"), NumAt(j, "scoreToWin"))
  }

  function EncodeSettings(s: Settings): (j: Json)
    ensures IsTournamentSettings(j) && DecodeSettings(j) == s
  {
    JObj(map["maxPlayerCount" := JNum(s.maxPlayerCount), "scoreToWin" := JNum(s.scoreToWin)])
  }

  /** The range checks on settings that already have the right shape. */
  predicate ValidSettings(s: Settings)
  {
    (s.maxPlayerCount == 4.0 || s.maxPlayerCount == 8.0 ||
     s.maxPlayerCount == 16.0 || s.maxPlayerCount == 32.0) &&
    !(s.scoreToWin < 1.0 || s.scoreToWin > MaxScoreToWin)
  }

  /** `isValidTournamentSettings` */
  predicate IsValidTournamentSettings(j: Json)
  {
    IsTournamentSettings(j) && ValidSettings(DecodeSettings(j))
  }

  /** The player limit of valid settings, as a count. */
  function MaxPlayers(s: Settings): (n: nat)
    requires ValidSettings(s)
    ensures n as real == s.maxPlayerCount
  {
    if s.maxPlayerCount == 4.0 then 4
    else if s.maxPlayerCount == 8.0 then 8
    else if s.maxPlayerCount == 16.0 then 16
    else 32
  }

  /** Parses and validates settings: `Some` exactly for the settings the server accepts. */
  function ParseSettings(j: Json): (r: Option<Settings>)
    ensures r.Some? <==> IsValidTournamentSettings(j)
    ensures r.Some? ==>
              r.value.maxPlayerCount == NumAt(j, "maxPlayerCount") &&
              r.value.scoreToWin == NumAt(j, "scoreToWin")
  {
    if IsValidTournamentSettings(j) then Some(DecodeSettings(j)) else None
  }

  /** Accepted settings: 4, 8, 16 or 32 players and a score to win in [1, 30]. */
  lemma ValidSettingsRanges(j: Json)
    ensures IsValidTournamentSettings(j) <==>
      IsTournamentSettings(j) &&
      NumAt(j, "maxPlayerCount") in {4.0, 8.0, 16.0, 32.0} &&
      1.0 <= NumAt(j, "scoreToWin") <= 30.0
  {
  }

  /** Any accepted player limit is a power of two that is at least 4. */
  lemma ValidMaxIsPowerOfTwo(s: Settings)
    requires ValidSettings(s)
    ensures MaxPlayers(s) >= 4 && IsPowerOfTwo(MaxPlayers(s))
  {
    var n := MaxPlayers(s);
    assert IsPowerOfTwo(1);
    assert IsPowerOfTwo(2);
    assert IsPowerOfTwo(4);
    assert n >= 8 ==> IsPowerOfTwo(8);
    assert n >= 16 ==> IsPowerOfTwo(16);
  }
}
