/**
 * The client's loading tracker: one boolean per asset being loaded.
 */
module LoadingHandler {

  /** Number of loaded entries. */
  function CountLoaded(s: seq<bool>): (n: nat)
    ensures n <= |s|
  {
    if |s| == 0 then 0 else CountLoaded(s[..|s| - 1]) + (if s[|s| - 1] then 1 else 0)
  }

  /** Every entry is loaded. */
  predicate AllLoaded(s: seq<bool>) { forall i :: 0 <= i < |s| ==> s[i] }

  /** The loaded fraction, 0 for an empty list. */
  function Proportion(s: seq<bool>): real
  {
    if |s| == 0 then 0.0 else CountLoaded(s) as real / |s| as real
  }

  /** The list after marking `index` loaded; out-of-range indices change nothing. */
  function MarkLoaded(s: seq<bool>, index: int): seq<bool>
  {
    if 0 <= index < |s| then s[index := true] else s
  }

  lemma {:induction false} CountLoadedAll(s: seq<bool>)
    ensures CountLoaded(s) == |s| <==> AllLoaded(s)
  {
    if |s| > 0 {
      var p := s[..|s| - 1];
      CountLoadedAll(p);
      assert forall i :: 0 <= i < |p| ==> p[i] == s[i];
    }
  }

  lemma {:induction false} CountLoadedUpdate(s: seq<bool>, i: int)
    requires 0 <= i < |s|
    ensures CountLoaded(s[i := true]) == CountLoaded(s) + (if s[i] then 0 else 1)
  {
    var t := s[i := true];
    if i < |s| - 1 {
      assert t[..|t| - 1] == s[..|s| - 1][i := true];
      CountLoadedUpdate(s[..|s| - 1], i);
    } else {
      assert t[..|t| - 1] == s[..|s| - 1];
    }
  }

  /** The proportion lies in [0, 1] and is 1 exactly when a non-empty list is all loaded. */
  lemma ProportionBounds(s: seq<bool>)
    ensures 0.0 <= Proportion(s) <= 1.0
    ensures Proportion(s) == 1.0 <==> |s| > 0 && AllLoaded(s)
  {
    CountLoadedAll(s);
    if |s| > 0 {
      var c := CountLoaded(s) as real;
      var n := |s| as real;
      assert c <= n;
      DivLeOne(c, n);
    }
  }

  lemma DivLeOne(c: real, n: real)
    requires 0.0 <= c <= n && n > 0.0
    ensures 0.0 <= c / n <= 1.0
    ensures c / n == 1.0 <==> c == n
  {
    if c / n == 1.0 {
      assert c == (c / n) * n;
    }
  }

  /** Marking an entry loaded never lowers the proportion and never unsets another entry. */
  lemma MarkLoadedMonotone(s: seq<bool>, index: int)
    ensures |MarkLoaded(s, index)| == |s|
    ensures forall i :: 0 <= i < |s| && s[i] ==> MarkLoaded(s, index)[i]
    ensures Proportion(MarkLoaded(s, index)) >= Proportion(s)
  {
    if 0 <= index < |s| {
      CountLoadedUpdate(s, index);
    }
  }

  /** Marking the same entry twice is the same as marking it once. */
  lemma MarkLoadedIdempotent(s: seq<bool>, index: int)
    ensures MarkLoaded(MarkLoaded(s, index), index) == MarkLoaded(s, index)
  {
  }

  class LoadingHandler {
    var loadingStates: seq<bool>

    constructor ()
      ensures loadingStates == []
    {
      loadingStates := [];
    }

    /** `addLoadingState`: appends a not-loaded entry and returns its index. */
    method AddLoadingState() returns (index: nat)
      modifies this
      ensures loadingStates == old(loadingStates) + [false]
      ensures index == |old(loadingStates)| && !loadingStates[index]
    {
      loadingStates := loadingStates + [false];
      index := |loadingStates| - 1;
    }

    /** `setLoaded` */
    method SetLoaded(index: int)
      modifies this
      ensures loadingStates == MarkLoaded(old(loadingStates), index)
    {
      if index >= 0 && index < |loadingStates| {
        loadingStates := loadingStates[index := true];
      }
    }

    /** `getLoadedProportion` */
    function GetLoadedProportion(): (r: real)
      reads this
      ensures 0.0 <= r <= 1.0
      ensures |loadingStates| == 0 ==> r == 0.0
      ensures r == 1.0 <==> |loadingStates| > 0 && AllLoaded(loadingStates)
    {
      ProportionBounds(loadingStates);
      Proportion(loadingStates)
    }

    /** `isAllLoaded`: vacuously true for an empty list (whose proportion is 0). */
    function IsAllLoaded(): (r: bool)
      reads this
      ensures r <==> CountLoaded(loadingStates) == |loadingStates|
    {
      CountLoadedAll(loadingStates);
      AllLoaded(loadingStates)
    }

    /** `clear` */
    method Clear()
      modifies this
      ensures loadingStates == []
    {
      loadingStates := [];
    }
  }
}
