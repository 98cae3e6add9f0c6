/**
 * Client-side chat helpers: the "ready to play already sent" flag and the
 * list of hidden chat room ids kept in the browser's local storage.
 */
module ChatUtils {

  const HiddenChatRoomsKey: string := "hiddenChatRooms"

  /** `hidden.includes(id) ? hidden : [...hidden, id]` */
  function AddId(hidden: seq<int>, id: int): (r: seq<int>)
    ensures id in r
    ensures forall x :: x in r <==> x in hidden || x == id
  {
    if id in hidden then hidden else hidden + [id]
  }

  /** `hidden.filter(x => x !== id)` */
  function RemoveId(hidden: seq<int>, id: int): (r: seq<int>)
    ensures |r| <= |hidden|
  {
    if |hidden| == 0 then []
    else (if hidden[0] != id then [hidden[0]] else []) + RemoveId(hidden[1..], id)
  }

  predicate NoDuplicates(s: seq<int>)
  {
    forall i, j :: 0 <= i < j < |s| ==> s[i] != s[j]
  }

  /** Adding keeps the list duplicate-free and is idempotent. */
  lemma AddIdProperties(hidden: seq<int>, id: int)
    ensures NoDuplicates(hidden) ==> NoDuplicates(AddId(hidden, id))
    ensures AddId(AddId(hidden, id), id) == AddId(hidden, id)
    ensures id !in hidden ==> AddId(hidden, id) == hidden + [id]
  {
  }

  /** Removing drops every occurrence of `id` and keeps the other ids with their multiplicities. */
  lemma {:induction false} RemoveIdProperties(hidden: seq<int>, id: int)
    ensures id !in RemoveId(hidden, id)
    ensures forall x :: x != id ==> multiset(RemoveId(hidden, id))[x] == multiset(hidden)[x]
    ensures |RemoveId(hidden, id)| == |hidden| - multiset(hidden)[id]
  {
    if |hidden| > 0 {
      RemoveIdProperties(hidden[1..], id);
      assert hidden == [hidden[0]] + hidden[1..];
    }
  }

  /** Removal keeps the order of what remains: it distributes over concatenation. */
  lemma {:induction false} RemoveIdAppend(a: seq<int>, b: seq<int>, id: int)
    ensures RemoveId(a + b, id) == RemoveId(a, id) + RemoveId(b, id)
  {
    if |a| > 0 {
      assert (a + b)[1..] == a[1..] + b;
      RemoveIdAppend(a[1..], b, id);
    } else {
      assert a + b == b;
    }
  }

  /** Removing an id that was just added to a list that lacked it restores the list. */
  lemma AddThenRemove(hidden: seq<int>, id: int)
    requires id !in hidden
    ensures RemoveId(AddId(hidden, id), id) == hidden
  {
    RemoveIdAppend(hidden, [id], id);
    RemoveIdAbsent(hidden, id);
  }

  lemma {:induction false} RemoveIdAbsent(hidden: seq<int>, id: int)
    requires id !in hidden
    ensures RemoveId(hidden, id) == hidden
  {
    if |hidden| > 0 {
      RemoveIdAbsent(hidden[1..], id);
    }
  }

  class ChatUtils {
    var alreadySentReadyToPlay: bool
    /** Local storage, restricted to the lists of numbers these helpers read and write. */
    var storage: map<string, seq<int>>

    constructor (stored: map<string, seq<int>>)
      ensures !alreadySentReadyToPlay && storage == stored
    {
      alreadySentReadyToPlay := false;
      storage := stored;
    }

    /** `setReadyToPlaySent`: `hasSentReadyToPlay` reads back the value written; the hidden rooms are untouched. */
    method SetReadyToPlaySent(val: bool)
      modifies this`alreadySentReadyToPlay
      ensures HasSentReadyToPlay() == val
      ensures GetHiddenRoomIds() == old(GetHiddenRoomIds())
    {
      alreadySentReadyToPlay := val;
    }

    /** `hasSentReadyToPlay` */
    function HasSentReadyToPlay(): bool
      reads this
    {
      alreadySentReadyToPlay
    }

    /** `getHiddenRoomIds`: the stored list, or [] when nothing is stored. */
    function GetHiddenRoomIds(): (ids: seq<int>)
      reads this
      ensures HiddenChatRoomsKey !in storage ==> ids == []
    {
      if HiddenChatRoomsKey in storage then storage[HiddenChatRoomsKey] else []
    }

    /** `addHiddenRoomId`: writes back only when the id was absent. */
    method AddHiddenRoomId(roomId: int)
      modifies this`storage
      ensures GetHiddenRoomIds() == AddId(old(GetHiddenRoomIds()), roomId)
      ensures roomId in old(GetHiddenRoomIds()) ==> storage == old(storage)
      ensures forall k :: k != HiddenChatRoomsKey ==>
                (k in storage <==> k in old(storage)) && (k in storage ==> storage[k] == old(storage)[k])
    {
      var hidden := GetHiddenRoomIds();
      if roomId !in hidden {
        hidden := hidden + [roomId];
        storage := storage[HiddenChatRoomsKey := hidden];
      }
    }

    /** `removeHiddenRoomId`: always writes back the filtered list. */
    method RemoveHiddenRoomId(roomId: int)
      modifies this`storage
      ensures storage == old(storage)[HiddenChatRoomsKey := RemoveId(old(GetHiddenRoomIds()), roomId)]
    {
      var hidden := GetHiddenRoomIds();
      var updated := RemoveId(hidden, roomId);
      storage := storage[HiddenChatRoomsKey := updated];
    }
  }
}
