/**
 * Top-level messages on the socket: errors, notifications, and the three
 * channel envelopes whose `data` payload is classified separately.
 */
module MessageEnvelope {
  import opened Common
  import opened Json

  datatype Envelope =
    | Error(msg: string)
    | Notification(notifType: string, msg: string)
    | GameEnvelope(data: Json)
    | ChatEnvelope(data: Json)
    | TournamentEnvelope(data: Json)

  datatype EnvelopeKind = ErrorKind | NotificationKind | GameKind | ChatKind | TournamentKind

  /** The optional `errorType` field is not checked. */
  predicate IsErrorMessage(j: Json) { HasTag(j, "error") && IsStringAt(j, "msg") }

  /** Any string is accepted as `notifType`, not only info/success/error. */
  predicate IsNotificationMessage(j: Json)
  {
    HasTag(j, "notif") && IsStringAt(j, "notifType") && IsStringAt(j, "msg")
  }

  /** Envelopes only require a `data` key; its payload is unchecked here. */
  predicate IsGameMessage(j: Json) { HasTag(j, "game") && Has(j, "data") }

  predicate IsChatMessage(j: Json) { HasTag(j, "chat") && Has(j, "data") }

  predicate IsTournamentMessage(j: Json) { HasTag(j, "tournament") && Has(j, "data") }

  predicate Accepts(k: EnvelopeKind, j: Json)
  {
    match k
    case ErrorKind => IsErrorMessage(j)
    case NotificationKind => IsNotificationMessage(j)
    case GameKind => IsGameMessage(j)
    case ChatKind => IsChatMessage(j)
    case TournamentKind => IsTournamentMessage(j)
  }

  function KindOf(m: Envelope): EnvelopeKind
  {
    match m
    case Error(_) => ErrorKind
    case Notification(_, _) => NotificationKind
    case GameEnvelope(_) => GameKind
    case ChatEnvelope(_) => ChatKind
    case TournamentEnvelope(_) => TournamentKind
  }

  function Tag(k: EnvelopeKind): string
  {
    match k
    case ErrorKind => "error"
    case NotificationKind => "notif"
    case GameKind => "game"
    case ChatKind => "chat"
    case TournamentKind => "tournament"
  }

  function Encode(m: Envelope): (j: Json)
    ensures HasTag(j, Tag(KindOf(m)))
  {
    var t := map["type" := JStr(Tag(KindOf(m)))];
    match m
    case Error(msg) => JObj(t["msg" := JStr(msg)])
    case Notification(n, msg) => JObj(t["notifType" := JStr(n)]["msg" := JStr(msg)])
    case GameEnvelope(d) => JObj(t["data" := d])
    case ChatEnvelope(d) => JObj(t["data" := d])
    case TournamentEnvelope(d) => JObj(t["data" := d])
  }

  function Decode(j: Json): (r: Option<Envelope>)
    ensures r.Some? <==> exists k :: Accepts(k, j)
    ensures r.Some? ==> Accepts(KindOf(r.value), j)
  {
    if IsErrorMessage(j) then assert Accepts(ErrorKind, j);
      Some(Error(StrAt(j, "msg")))
    else if IsNotificationMessage(j) then assert Accepts(NotificationKind, j);
      Some(Notification(StrAt(j, "notifType"), StrAt(j, "msg")))
    else if IsGameMessage(j) then assert Accepts(GameKind, j);
      Some(GameEnvelope(At(j, "data")))
    else if IsChatMessage(j) then assert Accepts(ChatKind, j);
      Some(ChatEnvelope(At(j, "data")))
    else if IsTournamentMessage(j) then assert Accepts(TournamentKind, j);
      Some(TournamentEnvelope(At(j, "data")))
    else
      assert forall k :: !Accepts(k, j);
      None
  }

  /** At most one of the five envelope validators holds. */
  lemma ValidatorsExclusive(k1: EnvelopeKind, k2: EnvelopeKind, j: Json)
    requires Accepts(k1, j) && Accepts(k2, j)
    ensures k1 == k2
  {
    assert HasTag(j, Tag(k1)) && HasTag(j, Tag(k2));
    assert Tag(k1) == Tag(k2);
    assert Tag(k1)[0] == Tag(k2)[0];
  }

  lemma EncodeAccepted(m: Envelope)
    ensures Accepts(KindOf(m), Encode(m))
    ensures forall k :: Accepts(k, Encode(m)) ==> k == KindOf(m)
  {
    forall k | Accepts(k, Encode(m)) ensures k == KindOf(m) {
      ValidatorsExclusive(k, KindOf(m), Encode(m));
    }
  }

  lemma DecodeEncode(m: Envelope)
    ensures Decode(Encode(m)) == Some(m)
  {
    EncodeAccepted(m);
  }
}
