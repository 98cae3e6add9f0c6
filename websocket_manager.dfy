/**
 * The client's event-callback registry and outgoing message envelope.
 * Callbacks are identified by an opaque id (JavaScript compares them by
 * reference); the socket is reduced to whether it is open.
 */
module WebSocketManager {
  import opened Common
  import opened Json
  import MessageEnvelope

  datatype EventType = OnConnected | OnDisconnected | Game | Chat | Tournament

  type CallbackId = nat

  /** Only the three channel events can be sent. */
  predicate Sendable(e: EventType) { e == Game || e == Chat || e == Tournament }

  function EventName(e: EventType): string
  {
    match e
    case OnConnected => "onConnected"
    case OnDisconnected => "onDisconnected"
    case Game => "game"
    case Chat => "chat"
    case Tournament => "tournament"
  }

  /** `indexOf`: the first position of `c`, or -1. */
  function IndexOf(s: seq<CallbackId>, c: CallbackId): (i: int)
    ensures -1 <= i < |s|
    ensures i == -1 <==> c !in s
    ensures i >= 0 ==> s[i] == c && c !in s[..i]
  {
    if |s| == 0 then -1
    else if s[0] == c then 0
    else
      var k := IndexOf(s[1..], c);
      assert k >= 0 ==> s[..k + 1] == [s[0]] + s[1..][..k];
      if k == -1 then -1 else k + 1
  }

  /** The list without its first occurrence of `c` (unchanged when absent). */
  function RemoveFirst(s: seq<CallbackId>, c: CallbackId): seq<CallbackId>
  {
    var i := IndexOf(s, c);
    if i > -1 then s[..i] + s[i + 1..] else s
  }

  /** Removing the first occurrence drops exactly one copy of a present callback. */
  lemma RemoveFirstCount(s: seq<CallbackId>, c: CallbackId)
    ensures c in s ==> multiset(RemoveFirst(s, c)) == multiset(s) - multiset{c}
    ensures c !in s ==> RemoveFirst(s, c) == s
  {
    var i := IndexOf(s, c);
    if i > -1 {
      assert s == s[..i] + [c] + s[i + 1..];
    }
  }

  /** Subscribing a new callback and unsubscribing it again restores the list. */
  lemma SubscribeUnsubscribe(s: seq<CallbackId>, c: CallbackId)
    requires c !in s
    ensures RemoveFirst(s + [c], c) == s
  {
    assert IndexOf(s + [c], c) == |s| by {
      assert (s + [c])[..|s|] == s;
    }
  }

  class WebSocketManager {
    var callbacks: map<EventType, seq<CallbackId>>
    var connected: bool

    constructor ()
      ensures callbacks == map[] && !connected
    {
      callbacks := map[];
      connected := false;
    }

    function Callbacks(e: EventType): seq<CallbackId>
      reads this
    {
      if e in callbacks then callbacks[e] else []
    }

    /** Tracks whether the socket is open (driven by the connection loop); `isConnected` reads it back. */
    method SetConnected(open: bool)
      modifies this`connected
      ensures IsConnected() == open
    {
      connected := open;
    }

    /** `subscribeTo`: appends, duplicates allowed, other events untouched. */
    method SubscribeTo(e: EventType, c: CallbackId)
      modifies this`callbacks
      ensures Callbacks(e) == old(Callbacks(e)) + [c]
      ensures forall e' :: e' != e ==> Callbacks(e') == old(Callbacks(e'))
    {
      if e !in callbacks {
        callbacks := callbacks[e := []];
      }
      callbacks := callbacks[e := callbacks[e] + [c]];
    }

    /** `unsubscribeTo`: removes only the first occurrence, if any. */
    method UnsubscribeTo(e: EventType, c: CallbackId)
      modifies this`callbacks
      ensures Callbacks(e) == RemoveFirst(old(Callbacks(e)), c)
      ensures forall e' :: e' != e ==> Callbacks(e') == old(Callbacks(e'))
    {
      if e in callbacks {
        var list := callbacks[e];
        var index := IndexOf(list, c);
        if index > -1 {
          callbacks := callbacks[e := list[..index] + list[index + 1..]];
        }
      }
    }

    /** `notifySubscribers`: the callbacks invoked, in registration order. */
    method NotifySubscribers(e: EventType) returns (invoked: seq<CallbackId>)
      ensures invoked == Callbacks(e)
    {
      invoked := [];
      if e in callbacks {
        var list := callbacks[e];
        var i := 0;
        while i < |list|
          invariant 0 <= i <= |list|
          invariant invoked == list[..i]
        {
          invoked := invoked + [list[i]];
          i := i + 1;
        }
        assert list[..|list|] == list;
      }
    }

    /** `isConnected` */
    function IsConnected(): bool
      reads this
    {
      connected
    }

    /** `sendMessage`: nothing when the socket is closed, else the `{type, data}` envelope. */
    method SendMessage(e: EventType, data: Json) returns (sent: Option<Json>)
      requires Sendable(e)
      ensures sent.None? <==> !connected
      ensures sent.Some? ==> Get(sent.value, "type") == Some(JStr(EventName(e)))
                             && Get(sent.value, "data") == Some(data)
      ensures sent.Some? ==> MessageEnvelope.Decode(sent.value) == Some(EnvelopeOf(e, data))
    {
      if !IsConnected() {
        return None;
      }
      var message := JObj(map["type" := JStr(EventName(e)), "data" := data]);
      sent := Some(message);
      assert message == MessageEnvelope.Encode(EnvelopeOf(e, data));
      MessageEnvelope.DecodeEncode(EnvelopeOf(e, data));
    }
  }

  /** The envelope the server reads back from a sent message. */
  function EnvelopeOf(e: EventType, data: Json): MessageEnvelope.Envelope
    requires Sendable(e)
  {
    match e
    case Game => MessageEnvelope.GameEnvelope(data)
    case Chat => MessageEnvelope.ChatEnvelope(data)
    case Tournament => MessageEnvelope.TournamentEnvelope(data)
  }
}
