/** The bounded duplicate filter for envelope ids (internal/a2a/router.go:363-382). */
module Dedup {

  const CAPACITY: nat := 1024

  function LastN(s: seq<string>, n: nat): seq<string> {
    if |s| <= n then s else s[|s| - n..]
  }

  ghost predicate NoDup(s: seq<string>) {
    forall i, j | 0 <= i < j < |s| :: s[i] != s[j]
  }

  /** An id is taken for a duplicate when it is among the last CAPACITY accepted ids. */
  predicate Seen(accepted: seq<string>, id: string) {
    id in LastN(accepted, CAPACITY)
  }

  function Note(accepted: seq<string>, id: string): seq<string> {
    if Seen(accepted, id) then accepted else accepted + [id]
  }

  /** All ids accepted once more have arrived: the reference the cache is held to. */
  function Accepted(before: seq<string>, arrivals: seq<string>): seq<string> {
    if arrivals == [] then before
    else Note(Accepted(before, arrivals[..|arrivals| - 1]), arrivals[|arrivals| - 1])
  }

  /** No accepted id was among the CAPACITY accepted just before it. */
  ghost predicate Sliding(accepted: seq<string>) {
    forall i | 0 <= i < |accepted| :: !Seen(accepted[..i], accepted[i])
  }

  /** The window, written out: an id counts as seen exactly if one of the last 1024 accepted ids is this one. */
  lemma SeenExactly(accepted: seq<string>, id: string)
    ensures Seen(accepted, id) <==> exists i :: 0 <= i < |accepted| && |accepted| - i <= 1024 && accepted[i] == id
  {
    var w := LastN(accepted, CAPACITY);
    var base := |accepted| - |w|;
    if Seen(accepted, id) {
      var k :| 0 <= k < |w| && w[k] == id;
      assert accepted[base + k] == id;
    }
    if i :| 0 <= i < |accepted| && |accepted| - i <= 1024 && accepted[i] == id {
      assert w[i - base] == id;
    }
  }

  lemma NoteKeepsSliding(accepted: seq<string>, id: string)
    requires Sliding(accepted)
    ensures Sliding(Note(accepted, id))
  {
    var h := Note(accepted, id);
    forall i | 0 <= i < |h| ensures !Seen(h[..i], h[i]) {
      assert h[..i] == accepted[..i];
    }
  }

  lemma WindowHasNoDup(accepted: seq<string>)
    requires Sliding(accepted)
    ensures NoDup(LastN(accepted, CAPACITY))
  {
    var w := LastN(accepted, CAPACITY);
    var base := |accepted| - |w|;
    forall i, j | 0 <= i < j < |w| ensures w[i] != w[j] {
      assert !Seen(accepted[..base + j], accepted[base + j]);
      var before := LastN(accepted[..base + j], CAPACITY);
      assert before[|before| - (j - i)] == w[i];
    }
  }

  // ---- The cache: a map for membership and a list for eviction order ----

  class DedupCache {
    var cache: set<string>
    var order: seq<string>
    ghost var accepted: seq<string>

    ghost predicate Valid()
      reads this
    {
      && Sliding(accepted)
      && order == LastN(accepted, CAPACITY)
      && (forall id :: id in cache <==> id in order)
      && |order| <= CAPACITY
      && NoDup(order)
    }

    constructor ()
      ensures Valid() && accepted == []
    {
      cache, order, accepted := {}, [], [];
    }

    method IsDuplicate(id: string) returns (dup: bool)
      requires Valid()
      modifies this
      ensures Valid()
      ensures dup == Seen(old(accepted), id)
      ensures accepted == Note(old(accepted), id)
    {
      if id in cache {
        return true;
      }
      NoteKeepsSliding(accepted, id);
      if |order| >= CAPACITY {
        var oldest := order[0];
        order := order[1..];
        cache := cache - {oldest};
      }
      cache := cache + {id};
      order := order + [id];
      accepted := accepted + [id];
      WindowHasNoDup(accepted);
      dup := false;
    }
  }

  // ---- What the filter promises over a whole run ----

  lemma {:induction false} AcceptedIsSliding(before: seq<string>, arrivals: seq<string>)
    requires Sliding(before)
    ensures Sliding(Accepted(before, arrivals))
  {
    if arrivals != [] {
      AcceptedIsSliding(before, arrivals[..|arrivals| - 1]);
      NoteKeepsSliding(Accepted(before, arrivals[..|arrivals| - 1]), arrivals[|arrivals| - 1]);
    }
  }

  lemma {:induction false} DistinctCount(s: seq<string>)
    requires NoDup(s)
    ensures |(set x | x in s)| == |s|
  {
    if s != [] {
      var rest := s[..|s| - 1];
      DistinctCount(rest);
      assert (set x | x in s) == (set x | x in rest) + {s[|s| - 1]};
    }
  }

  lemma WindowInside(accepted: seq<string>, from: nat)
    requires from + CAPACITY <= |accepted|
    ensures |LastN(accepted, CAPACITY)| == CAPACITY
    ensures forall id | id in LastN(accepted, CAPACITY) :: id in accepted[from..]
  {
    var w := LastN(accepted, CAPACITY);
    forall id | id in w ensures id in accepted[from..] {
      var k :| 0 <= k < |w| && w[k] == id;
      assert accepted[from..][|accepted| - CAPACITY - from + k] == id;
    }
  }

  /**
   * An id accepted at the end of `from` and no longer seen after `to` has been pushed out by 1024 pairwise
   * distinct other ids, all accepted in between.
   */
  lemma FullWindowBetween(from: seq<string>, to: seq<string>, id: string) returns (others: set<string>)
    requires Sliding(to) && from <= to && from != [] && from[|from| - 1] == id
    requires !Seen(to, id)
    ensures |others| == 1024 && id !in others
    ensures forall other <- others :: other in to[|from|..]
  {
    var window := LastN(to, CAPACITY);
    if |to| < |from| + CAPACITY {
      RepeatDropped(to, |from| - 1);
    }
    WindowHasNoDup(to);
    DistinctCount(window);
    others := set other | other in window;
    WindowInside(to, |from|);
  }

  /** Conversely, a repeat is dropped as long as fewer than CAPACITY ids were accepted since. */
  lemma RepeatDropped(accepted: seq<string>, i: nat)
    requires i < |accepted| <= i + CAPACITY
    ensures Seen(accepted, accepted[i])
  {
    var w := LastN(accepted, CAPACITY);
    assert w[i - (|accepted| - |w|)] == accepted[i];
  }
}
