/**
 * The payloads of the "tournament" channel.
 */
module TournamentMessages {
  import opened Common
  import opened Json
  import opened TournamentSettings

  datatype TournamentMessage =
    | Create(name: string, settings: Settings)
    | Join(uuid: string, username: string)
    | Leave(uuid: string)
    | Close(uuid: string)
    | LaunchMatch

  datatype TournamentKind = CreateKind | JoinKind | LeaveKind | CloseKind | LaunchMatchKind

  /** Settings only need the right shape here; out-of-range values still pass. */
  predicate IsCreateMessage(j: Json)
  {
    HasTag(j, "create") && IsStringAt(j, "name") &&
    IsObjectAt(j, "settings") && IsTournamentSettings(At(j, "settings"))
  }

  predicate IsJoinMessage(j: Json)
  {
    HasTag(j, "join") && IsStringAt(j, "uuid") && IsStringAt(j, "username")
  }

  predicate IsLeaveMessage(j: Json) { HasTag(j, "leave") && IsStringAt(j, "uuid") }

  predicate IsCloseMessage(j: Json) { HasTag(j, "close") && IsStringAt(j, "uuid") }

  predicate IsLaunchMatchMessage(j: Json) { HasTag(j, "launchMatch") }

  predicate Accepts(k: TournamentKind, j: Json)
  {
    match k
    case CreateKind => IsCreateMessage(j)
    case JoinKind => IsJoinMessage(j)
    case LeaveKind => IsLeaveMessage(j)
    case CloseKind => IsCloseMessage(j)
    case LaunchMatchKind => IsLaunchMatchMessage(j)
  }

  function KindOf(m: TournamentMessage): TournamentKind
  {
    match m
    case Create(_, _) => CreateKind
    case Join(_, _) => JoinKind
    case Leave(_) => LeaveKind
    case Close(_) => CloseKind
    case LaunchMatch => LaunchMatchKind
  }

  function Tag(k: TournamentKind): string
  {
    match k
    case CreateKind => "create"
    case JoinKind => "join"
    case LeaveKind => "leave"
    case CloseKind => "close"
    case LaunchMatchKind => "launchMatch"
  }

  function Encode(m: TournamentMessage): (j: Json)
    ensures HasTag(j, Tag(KindOf(m)))
  {
    var t := map["type" := JStr(Tag(KindOf(m)))];
    match m
    case Create(n, s) => JObj(t["name" := JStr(n)]["settings" := EncodeSettings(s)])
    case Join(u, n) => JObj(t["uuid" := JStr(u)]["username" := JStr(n)])
    case Leave(u) => JObj(t["uuid" := JStr(u)])
    case Close(u) => JObj(t["uuid" := JStr(u)])
    case LaunchMatch => JObj(t)
  }

  function Decode(j: Json): (r: Option<TournamentMessage>)
    ensures r.Some? <==> exists k :: Accepts(k, j)
    ensures r.Some? ==> Accepts(KindOf(r.value), j)
  {
    if IsCreateMessage(j) then assert Accepts(CreateKind, j);
      Some(Create(StrAt(j, "name"), DecodeSettings(At(j, "settings"))))
    else if IsJoinMessage(j) then assert Accepts(JoinKind, j);
      Some(Join(StrAt(j, "uuid"), StrAt(j, "username")))
    else if IsLeaveMessage(j) then assert Accepts(LeaveKind, j);
      Some(Leave(StrAt(j, "uuid")))
    else if IsCloseMessage(j) then assert Accepts(CloseKind, j);
      Some(Close(StrAt(j, "uuid")))
    else if IsLaunchMatchMessage(j) then assert Accepts(LaunchMatchKind, j);
      Some(LaunchMatch)
    else
      assert forall k :: !Accepts(k, j);
      None
  }

  /** The five tags are distinct, so the validators are mutually exclusive. */
  lemma ValidatorsExclusive(k1: TournamentKind, k2: TournamentKind, j: Json)
    requires Accepts(k1, j) && Accepts(k2, j)
    ensures k1 == k2
  {
    assert HasTag(j, Tag(k1)) && HasTag(j, Tag(k2));
    assert Tag(k1) == Tag(k2);
    assert Tag(k1)[0] == Tag(k2)[0];
    if Tag(k1)[0] == 'c' { assert Tag(k1)[1] == Tag(k2)[1]; }
    if Tag(k1)[0] == 'l' { assert Tag(k1)[1] == Tag(k2)[1]; }
  }

  lemma EncodeAccepted(m: TournamentMessage)
    ensures Accepts(KindOf(m), Encode(m))
    ensures forall k :: Accepts(k, Encode(m)) ==> k == KindOf(m)
  {
    var j := Encode(m);
    if m.Create? {
      assert At(j, "settings") == EncodeSettings(m.settings);
    }
    forall k | Accepts(k, j) ensures k == KindOf(m) {
      ValidatorsExclusive(k, KindOf(m), j);
    }
  }

  lemma DecodeEncode(m: TournamentMessage)
    ensures Decode(Encode(m)) == Some(m)
  {
    var j := Encode(m);
    EncodeAccepted(m);
    if m.Create? {
      assert At(j, "settings") == EncodeSettings(m.settings);
    }
  }
}
