/**
 * The payloads of the "chat" channel.
 */
module ChatMessages {
  import opened Common
  import opened Json

  datatype ChatMessage =
    | NewMsgReceived(sender: string, msg: string, roomId: real)
    | NewMsgSend(senderEmail: string, senderName: string, receiverEmail: string, msg: string)
    | InviteToGame(from: string, userUuid: string)
    | AcceptGameInvite(from: string, userId: string)
    | StartGameRedirect(from: string, userId: string)

  datatype ChatKind = NewMsgReceivedKind | NewMsgSendKind | InviteToGameKind
                    | AcceptGameInviteKind | StartGameRedirectKind

  predicate IsNewMsgReceivedMessage(j: Json)
  {
    HasTag(j, "newMessageReceived") && IsStringAt(j, "sender") && IsStringAt(j, "msg") &&
    IsNumberAt(j, "roomId")
  }

  predicate IsNewMsgSendMessage(j: Json)
  {
    HasTag(j, "newMessageSend") && IsStringAt(j, "senderEmail") && IsStringAt(j, "senderName") &&
    IsStringAt(j, "receiverEmail") && IsStringAt(j, "msg")
  }

  predicate IsInviteToGameMessage(j: Json)
  {
    HasTag(j, "inviteToGame") && IsStringAt(j, "from") && IsStringAt(j, "userUuid")
  }

  predicate IsAcceptGameInviteMessage(j: Json)
  {
    HasTag(j, "gameInviteAccepted") && IsStringAt(j, "from") && IsStringAt(j, "userId")
  }

  predicate IsStartGameRedirectMessage(j: Json)
  {
    HasTag(j, "startGameRedirect") && IsStringAt(j, "from") && IsStringAt(j, "userId")
  }

  predicate Accepts(k: ChatKind, j: Json)
  {
    match k
    case NewMsgReceivedKind => IsNewMsgReceivedMessage(j)
    case NewMsgSendKind => IsNewMsgSendMessage(j)
    case InviteToGameKind => IsInviteToGameMessage(j)
    case AcceptGameInviteKind => IsAcceptGameInviteMessage(j)
    case StartGameRedirectKind => IsStartGameRedirectMessage(j)
  }

  function KindOf(m: ChatMessage): ChatKind
  {
    match m
    case NewMsgReceived(_, _, _) => NewMsgReceivedKind
    case NewMsgSend(_, _, _, _) => NewMsgSendKind
    case InviteToGame(_, _) => InviteToGameKind
    case AcceptGameInvite(_, _) => AcceptGameInviteKind
    case StartGameRedirect(_, _) => StartGameRedirectKind
  }

  function Tag(k: ChatKind): string
  {
    match k
    case NewMsgReceivedKind => "newMessageReceived"
    case NewMsgSendKind => "newMessageSend"
    case InviteToGameKind => "inviteToGame"
    case AcceptGameInviteKind => "gameInviteAccepted"
    case StartGameRedirectKind => "startGameRedirect"
  }

  function Encode(m: ChatMessage): (j: Json)
    ensures HasTag(j, Tag(KindOf(m)))
  {
    var t := map["type" := JStr(Tag(KindOf(m)))];
    match m
    case NewMsgReceived(s, msg, r) =>
      JObj(t["sender" := JStr(s)]["msg" := JStr(msg)]["roomId" := JNum(r)])
    case NewMsgSend(se, sn, re, msg) =>
      JObj(t["senderEmail" := JStr(se)]["senderName" := JStr(sn)]
            ["receiverEmail" := JStr(re)]["msg" := JStr(msg)])
    case InviteToGame(f, u) => JObj(t["from" := JStr(f)]["userUuid" := JStr(u)])
    case AcceptGameInvite(f, u) => JObj(t["from" := JStr(f)]["userId" := JStr(u)])
    case StartGameRedirect(f, u) => JObj(t["from" := JStr(f)]["userId" := JStr(u)])
  }

  function Decode(j: Json): (r: Option<ChatMessage>)
    ensures r.Some? <==> exists k :: Accepts(k, j)
    ensures r.Some? ==> Accepts(KindOf(r.value), j)
  {
    if IsNewMsgReceivedMessage(j) then assert Accepts(NewMsgReceivedKind, j);
      Some(NewMsgReceived(StrAt(j, "sender"), StrAt(j, "msg"), NumAt(j, "roomId")))
    else if IsNewMsgSendMessage(j) then assert Accepts(NewMsgSendKind, j);
      Some(NewMsgSend(StrAt(j, "senderEmail"), StrAt(j, "senderName"),
                      StrAt(j, "receiverEmail"), StrAt(j, "msg")))
    else if IsInviteToGameMessage(j) then assert Accepts(InviteToGameKind, j);
      Some(InviteToGame(StrAt(j, "from"), StrAt(j, "userUuid")))
    else if IsAcceptGameInviteMessage(j) then assert Accepts(AcceptGameInviteKind, j);
      Some(AcceptGameInvite(StrAt(j, "from"), StrAt(j, "userId")))
    else if IsStartGameRedirectMessage(j) then assert Accepts(StartGameRedirectKind, j);
      Some(StartGameRedirect(StrAt(j, "from"), StrAt(j, "userId")))
    else
      assert forall k :: !Accepts(k, j);
      None
  }

  /** Distinct tags: in particular an accepted invite is never also a redirect. */
  lemma ValidatorsExclusive(k1: ChatKind, k2: ChatKind, j: Json)
    requires Accepts(k1, j) && Accepts(k2, j)
    ensures k1 == k2
  {
    assert HasTag(j, Tag(k1)) && HasTag(j, Tag(k2));
    assert Tag(k1) == Tag(k2);
    assert Tag(k1)[0] == Tag(k2)[0];
    if Tag(k1)[0] == 'n' { assert Tag(k1)[11] == Tag(k2)[11]; }
  }

  lemma EncodeAccepted(m: ChatMessage)
    ensures Accepts(KindOf(m), Encode(m))
    ensures forall k :: Accepts(k, Encode(m)) ==> k == KindOf(m)
  {
    forall k | Accepts(k, Encode(m)) ensures k == KindOf(m) {
      ValidatorsExclusive(k, KindOf(m), Encode(m));
    }
  }

  lemma DecodeEncode(m: ChatMessage)
    ensures Decode(Encode(m)) == Some(m)
  {
    EncodeAccepted(m);
  }
}
