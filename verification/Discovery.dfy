/** Merging the answers of several discovery providers (internal/anycast/composite_discovery.go, multi_registry.go). */
module Discovery {

  datatype Endpoint = Endpoint(peer: string, details: string)

  datatype Answer = Found(endpoints: seq<Endpoint>) | Failed(error: string)

  datatype LastError = NoError | Error(error: string)

  /** All endpoints of the successful answers, in provider order. */
  function Pool(answers: seq<Answer>): seq<Endpoint> {
    if answers == [] then []
    else (if answers[0].Found? then answers[0].endpoints else []) + Pool(answers[1..])
  }

  /** The endpoints whose peer has not been seen before. */
  function Firsts(eps: seq<Endpoint>, seen: set<string>): seq<Endpoint> {
    if eps == [] then []
    else if eps[0].peer in seen then Firsts(eps[1..], seen)
    else [eps[0]] + Firsts(eps[1..], seen + {eps[0].peer})
  }

  function LastFailure(answers: seq<Answer>): LastError {
    if answers == [] then NoError
    else if LastFailure(answers[1..]).Error? then LastFailure(answers[1..])
    else if answers[0].Failed? then Error(answers[0].error)
    else NoError
  }

  function Conclude(merged: seq<Endpoint>, lastError: LastError): Answer {
    if merged == [] && lastError.Error? then Failed(lastError.error) else Found(merged)
  }

  function Merge(answers: seq<Answer>): Answer {
    Conclude(Firsts(Pool(answers), {}), LastFailure(answers))
  }

  /**
   * Every provider's goroutine writes its own slot; `order` is the order in which they finish. The slots end up
   * the same whatever that order is.
   */
  method Gather(answers: seq<Answer>, order: seq<nat>) returns (results: array<Answer>)
    requires forall i | 0 <= i < |answers| :: i in order
    requires forall i | i in order :: i < |answers|
    ensures fresh(results) && results[..] == answers
  {
    results := new Answer[|answers|](_ => Found([]));
    for k := 0 to |order|
      invariant forall i | 0 <= i < |answers| && i in order[..k] :: results[i] == answers[i]
    {
      assert order[k] in order;
      results[order[k]] := answers[order[k]];
    }
    assert order[..|order|] == order;
  }

  method MergeResults(results: array<Answer>) returns (r: Answer)
    ensures r == Merge(results[..])
  {
    var seen: set<string> := {};
    var merged: seq<Endpoint> := [];
    var lastError := NoError;
    for i := 0 to results.Length
      invariant Firsts(Pool(results[..]), {}) == merged + Firsts(Pool(results[i..]), seen)
      invariant LastFailure(results[..]) ==
        (if LastFailure(results[i..]).Error? then LastFailure(results[i..]) else lastError)
    {
      AnswerSplit(results[i..]);
      assert results[i..][1..] == results[i + 1..] && results[i..][0] == results[i];
      hide Pool, LastFailure, Firsts;
      match results[i] {
        case Failed(error) =>
          lastError := Error(error);
        case Found(endpoints) =>
          var more;
          more, seen := MergeEndpoints(endpoints, seen, Pool(results[i + 1..]));
          merged := merged + more;
      }
    }
    assert results[results.Length..] == [];
    r := Conclude(merged, lastError);
  }

  lemma AnswerSplit(answers: seq<Answer>)
    requires answers != []
    ensures answers[0].Found? ==> Pool(answers) == answers[0].endpoints + Pool(answers[1..])
    ensures answers[0].Failed? ==> Pool(answers) == Pool(answers[1..])
    ensures LastFailure(answers) ==
            if LastFailure(answers[1..]).Error? then LastFailure(answers[1..])
            else if answers[0].Failed? then Error(answers[0].error) else NoError
  {
  }

  /** The inner loop over one answer; `later` is what comes after it. */
  method MergeEndpoints(eps: seq<Endpoint>, seen0: set<string>, ghost later: seq<Endpoint>)
      returns (merged: seq<Endpoint>, seen: set<string>)
    ensures Firsts(eps + later, seen0) == merged + Firsts(later, seen)
  {
    merged, seen := [], seen0;
    assert eps[0..] == eps;
    for j := 0 to |eps|
      invariant Firsts(eps + later, seen0) == merged + Firsts(eps[j..] + later, seen)
    {
      assert (eps[j..] + later)[1..] == eps[j + 1..] + later;
      if eps[j].peer !in seen {
        seen := seen + {eps[j].peer};
        merged := merged + [eps[j]];
      }
    }
    assert eps[|eps|..] + later == later;
  }

  // ---- What a merge is ----

  function Peers(eps: seq<Endpoint>): set<string> {
    set i | 0 <= i < |eps| :: eps[i].peer
  }

  lemma {:induction false} FirstsPeers(eps: seq<Endpoint>, seen: set<string>)
    ensures Peers(Firsts(eps, seen)) == Peers(eps) - seen
  {
    if eps != [] {
      var first := eps[0].peer;
      PeersCons(eps);
      if first in seen {
        FirstsPeers(eps[1..], seen);
      } else {
        FirstsPeers(eps[1..], seen + {first});
        PeersCons(Firsts(eps, seen));
        assert Firsts(eps, seen)[1..] == Firsts(eps[1..], seen + {first});
      }
    }
  }

  /** `at` places each kept endpoint in the list; nothing before it has its peer. */
  ghost predicate Places(at: seq<nat>, kept: seq<Endpoint>, eps: seq<Endpoint>, seen: set<string>) {
    && |at| == |kept|
    && (forall i | 0 <= i < |at| :: at[i] < |eps| && kept[i] == eps[at[i]] && kept[i].peer !in seen)
    && (forall i, j | 0 <= i < j < |at| :: at[i] < at[j])
    && (forall i, k | 0 <= i < |at| && 0 <= k < at[i] :: eps[k].peer != kept[i].peer)
  }

  /** Places in the tail, moved up by one, with the head in front if it is kept. */
  function Moved(rest: seq<nat>, take: bool): seq<nat> {
    (if take then [0] else []) + seq(|rest|, i requires 0 <= i < |rest| => rest[i] + 1)
  }

  lemma PlacesCons(rest: seq<nat>, kept: seq<Endpoint>, eps: seq<Endpoint>, seen: set<string>, take: bool)
    requires eps != [] && Places(rest, kept, eps[1..], seen + {eps[0].peer})
    requires take ==> eps[0].peer !in seen
    ensures Places(Moved(rest, take), (if take then [eps[0]] else []) + kept, eps, seen)
  {
    var at, all, shift := Moved(rest, take), (if take then [eps[0]] else []) + kept, if take then 1 else 0;
    assert |at| == |all|;
    forall i | shift <= i < |at| ensures at[i] == rest[i - shift] + 1 && all[i] == kept[i - shift] {
    }
    forall i, k | 0 <= i < |at| && 0 <= k < at[i] ensures eps[k].peer != all[i].peer {
      if k > 0 {
        assert eps[k] == eps[1..][k - 1];
      }
    }
    hide Moved;
  }

  lemma {:induction false} FirstsOf(eps: seq<Endpoint>, seen: set<string>) returns (at: seq<nat>)
    ensures Places(at, Firsts(eps, seen), eps, seen)
  {
    if eps == [] {
      at := [];
    } else {
      var take := eps[0].peer !in seen;
      var rest := FirstsOf(eps[1..], seen + {eps[0].peer});
      assert !take ==> seen + {eps[0].peer} == seen;
      var kept := Firsts(eps[1..], seen + {eps[0].peer});
      at := Moved(rest, take);
      PlacesCons(rest, kept, eps, seen, take);
      assert Firsts(eps, seen) == (if take then [eps[0]] else []) + kept;
      hide Places, Firsts;
    }
  }

  lemma PeersCons(eps: seq<Endpoint>)
    requires eps != []
    ensures Peers(eps) == {eps[0].peer} + Peers(eps[1..])
  {
    forall p | p in Peers(eps) ensures p in {eps[0].peer} + Peers(eps[1..]) {
      var i :| 0 <= i < |eps| && eps[i].peer == p;
      assert i > 0 ==> eps[1..][i - 1].peer == p;
    }
    forall p | p in Peers(eps[1..]) ensures p in Peers(eps) {
      var i :| 0 <= i < |eps| - 1 && eps[1..][i].peer == p;
      assert eps[i + 1].peer == p;
    }
  }

  /** The error kept is that of the last provider that failed, if any did. */
  lemma {:induction false} FailureIsLast(answers: seq<Answer>) returns (i: nat)
    ensures LastFailure(answers).Error? <==> exists k :: 0 <= k < |answers| && answers[k].Failed?
    ensures LastFailure(answers).Error? ==>
              i < |answers| && answers[i] == Failed(LastFailure(answers).error)
              && forall k | i < k < |answers| :: answers[k].Found?
  {
    i := 0;
    if answers != [] {
      var j := FailureIsLast(answers[1..]);
      assert forall k | 0 < k < |answers| :: answers[k] == answers[1..][k - 1];
      i := if LastFailure(answers[1..]).Error? then j + 1 else 0;
    }
  }

  // ---- Nesting ----

  lemma {:induction false} PoolConcat(a: seq<Answer>, b: seq<Answer>)
    ensures Pool(a + b) == Pool(a) + Pool(b)
  {
    if a == [] {
      assert a + b == b;
    } else {
      assert (a + b)[1..] == a[1..] + b;
      PoolConcat(a[1..], b);
    }
  }

  lemma {:induction false} FailureConcat(a: seq<Answer>, b: seq<Answer>)
    ensures LastFailure(a + b) == if LastFailure(b).Error? then LastFailure(b) else LastFailure(a)
  {
    if a == [] {
      assert a + b == b;
    } else {
      assert (a + b)[1..] == a[1..] + b;
      FailureConcat(a[1..], b);
    }
  }

  lemma {:induction false} FirstsConcat(x: seq<Endpoint>, y: seq<Endpoint>, seen: set<string>)
    ensures Firsts(x + y, seen) == Firsts(x, seen) + Firsts(y, seen + Peers(x))
  {
    if x == [] {
      assert x + y == y && seen + Peers(x) == seen;
    } else {
      assert x + y == [x[0]] + (x[1..] + y);
      FirstsHead(x[0], x[1..] + y, seen);
      FirstsHead(x[0], x[1..], seen);
      assert [x[0]] + x[1..] == x;
      PeersCons(x);
      hide Firsts, Peers;
      FirstsConcat(x[1..], y, seen + {x[0].peer});
      assert seen + {x[0].peer} + Peers(x[1..]) == seen + Peers(x);
    }
  }

  lemma FirstsHead(e: Endpoint, rest: seq<Endpoint>, seen: set<string>)
    ensures Firsts([e] + rest, seen) == (if e.peer in seen then [] else [e]) + Firsts(rest, seen + {e.peer})
  {
    assert ([e] + rest)[1..] == rest;
    assert e.peer in seen ==> seen + {e.peer} == seen;
  }

  // ---- What a merge is, in terms of the answers themselves ----

  /** The j-th endpoint of the i-th answer. */
  datatype Place = Place(i: nat, j: nat)

  predicate IsPlace(answers: seq<Answer>, p: Place) {
    p.i < |answers| && answers[p.i].Found? && p.j < |answers[p.i].endpoints|
  }

  function EndpointAt(answers: seq<Answer>, p: Place): Endpoint
    requires IsPlace(answers, p)
  {
    answers[p.i].endpoints[p.j]
  }

  /** Earlier in provider order, or earlier in the same answer. */
  predicate Earlier(p: Place, q: Place) {
    p.i < q.i || (p.i == q.i && p.j < q.j)
  }

  function Position(answers: seq<Answer>, p: Place): nat
    requires IsPlace(answers, p)
  {
    |Pool(answers[..p.i])| + p.j
  }

  lemma PositionHolds(answers: seq<Answer>, p: Place)
    requires IsPlace(answers, p)
    ensures Position(answers, p) < |Pool(answers)| && Pool(answers)[Position(answers, p)] == EndpointAt(answers, p)
  {
    var before, rest := answers[..p.i], answers[p.i..];
    assert answers == before + rest;
    PoolConcat(before, rest);
    assert Pool(rest) == answers[p.i].endpoints + Pool(rest[1..]);
  }

  lemma PositionsInOrder(answers: seq<Answer>, p: Place, q: Place)
    requires IsPlace(answers, p) && IsPlace(answers, q) && Earlier(p, q)
    ensures Position(answers, p) < Position(answers, q)
  {
    if p.i < q.i {
      var between := answers[p.i..q.i];
      assert answers[..q.i] == answers[..p.i] + between;
      PoolConcat(answers[..p.i], between);
      assert Pool(between) == answers[p.i].endpoints + Pool(between[1..]);
    }
  }

  lemma {:induction false} PlaceAt(answers: seq<Answer>, k: nat) returns (p: Place)
    requires k < |Pool(answers)|
    ensures IsPlace(answers, p) && Position(answers, p) == k
  {
    var first := if answers[0].Found? then answers[0].endpoints else [];
    if k < |first| {
      p := Place(0, k);
      assert answers[..0] == [];
    } else {
      var q := PlaceAt(answers[1..], k - |first|);
      p := Place(q.i + 1, q.j);
      assert answers[..q.i + 1][1..] == answers[1..][..q.i];
    }
  }

  /**
   * A merge keeps exactly one endpoint of each peer that a successful answer names: the one at the earliest place, in
   * the order of these places. `at` gives them.
   */
  lemma MergeKeepsFirsts(answers: seq<Answer>) returns (at: seq<Place>)
    requires Merge(answers).Found?
    ensures var eps := Merge(answers).endpoints;
            && |at| == |eps|
            && (forall k | 0 <= k < |eps| :: IsPlace(answers, at[k]) && eps[k] == EndpointAt(answers, at[k]))
            && (forall k, p | 0 <= k < |eps| && IsPlace(answers, p) && Earlier(p, at[k]) ::
                  EndpointAt(answers, p).peer != eps[k].peer)
            && (forall k, m | 0 <= k < m < |eps| :: Earlier(at[k], at[m]) && eps[k].peer != eps[m].peer)
            && (forall p | IsPlace(answers, p) :: exists k ::
                0 <= k < |eps| && eps[k].peer == EndpointAt(answers, p).peer)
  {
    var eps, pool := Merge(answers).endpoints, Pool(answers);
    var positions := FirstsOf(pool, {});
    FirstsPeers(pool, {});
    at := PlacesAt(answers, positions);
    forall k, p | 0 <= k < |eps| && IsPlace(answers, p) && Earlier(p, at[k])
      ensures EndpointAt(answers, p).peer != eps[k].peer {
      PositionHolds(answers, p);
      PositionsInOrder(answers, p, at[k]);
    }
    forall k | 0 <= k < |eps| ensures eps[k] == EndpointAt(answers, at[k]) {
      PositionHolds(answers, at[k]);
    }
    forall k, m | 0 <= k < m < |eps| ensures Earlier(at[k], at[m]) && eps[k].peer != eps[m].peer {
      if Earlier(at[m], at[k]) {
        PositionsInOrder(answers, at[m], at[k]);
      }
    }
    forall p | IsPlace(answers, p) ensures exists k :: 0 <= k < |eps| && eps[k].peer == EndpointAt(answers, p).peer {
      PositionHolds(answers, p);
      assert pool[Position(answers, p)].peer in Peers(pool);
      assert EndpointAt(answers, p).peer in Peers(eps);
    }
  }

  lemma PlacesAt(answers: seq<Answer>, positions: seq<nat>) returns (at: seq<Place>)
    requires forall k | 0 <= k < |positions| :: positions[k] < |Pool(answers)|
    ensures |at| == |positions|
    ensures forall k | 0 <= k < |at| :: IsPlace(answers, at[k]) && Position(answers, at[k]) == positions[k]
  {
    at := [];
    for k := 0 to |positions|
      invariant |at| == k
      invariant forall m | 0 <= m < k :: IsPlace(answers, at[m]) && Position(answers, at[m]) == positions[m]
    {
      var p := PlaceAt(answers, positions[k]);
      at := at + [p];
    }
  }

  /**
   * A merge fails exactly when no successful answer has an endpoint and some provider failed, and then with the error
   * of the last one that did.
   */
  lemma MergeFailsOnlyEmpty(answers: seq<Answer>) returns (last: nat)
    ensures Merge(answers).Failed? <==>
              (forall i | 0 <= i < |answers| && answers[i].Found? :: answers[i].endpoints == [])
              && exists i :: 0 <= i < |answers| && answers[i].Failed?
    ensures Merge(answers).Failed? ==>
              && last < |answers| && answers[last] == Failed(Merge(answers).error)
              && forall i | last < i < |answers| :: answers[i].Found?
  {
    last := FailureIsLast(answers);
    FirstsPeers(Pool(answers), {});
    if Pool(answers) != [] {
      var p := PlaceAt(answers, 0);
      assert answers[p.i].endpoints != [];
      assert Pool(answers)[0].peer in Peers(Pool(answers));
    } else {
      forall i | 0 <= i < |answers| && answers[i].Found? ensures answers[i].endpoints == [] {
        if answers[i].endpoints != [] {
          PositionHolds(answers, Place(i, 0));
        }
      }
    }
  }

  /** Dropping repeats early does not change what a later pass keeps. */
  lemma {:induction false} FirstsTwice(y: seq<Endpoint>, inner: set<string>, seen: set<string>)
    requires inner <= seen
    ensures Firsts(Firsts(y, inner), seen) == Firsts(y, seen)
  {
    if y != [] {
      var p := y[0].peer;
      if p in inner {
        FirstsTwice(y[1..], inner, seen);
      } else {
        var once := Firsts(y, inner);
        assert once[1..] == Firsts(y[1..], inner + {p});
        FirstsTwice(y[1..], inner + {p}, seen + {p});
        if p in seen {
          assert seen + {p} == seen;
        }
      }
    }
  }

  lemma FirstsNested(x: seq<Endpoint>, y: seq<Endpoint>, z: seq<Endpoint>)
    ensures Firsts(x + (Firsts(y, {}) + z), {}) == Firsts(x + (y + z), {})
  {
    var once := Firsts(y, {});
    FirstsPeers(y, {});
    FirstsConcat(x, once + z, {});
    FirstsConcat(x, y + z, {});
    var seen := {} + Peers(x);
    FirstsConcat(once, z, seen);
    FirstsConcat(y, z, seen);
    FirstsTwice(y, {}, seen);
    assert seen + Peers(once) == seen + Peers(y);
  }

  /**
   * A merge nested anywhere inside another, as the multi-registry inside the composite, gives the same endpoints
   * and the same error as one flat merge over all providers.
   */
  lemma NestedMergeIsFlat(before: seq<Answer>, inner: seq<Answer>, after: seq<Answer>)
    ensures Merge(before + ([Merge(inner)] + after)) == Merge(before + (inner + after))
  {
    var nested := Merge(inner);
    PoolConcat(before, [nested] + after);
    PoolConcat([nested], after);
    PoolConcat(before, inner + after);
    PoolConcat(inner, after);
    FailureConcat(before, [nested] + after);
    FailureConcat([nested], after);
    FailureConcat(before, inner + after);
    FailureConcat(inner, after);
    assert Pool([nested]) == Firsts(Pool(inner), {}) by {
      assert Pool([nested]) == (if nested.Found? then nested.endpoints else []) + Pool([]);
    }
    FirstsNested(Pool(before), Pool(inner), Pool(after));
    var all := Firsts(Pool(before) + (Pool(inner) + Pool(after)), {});
    if Firsts(Pool(inner), {}) != [] {
      InnerShows(Pool(before), Pool(inner), Pool(after));
      assert all != [];
    } else {
      assert LastFailure([nested]) == LastFailure(inner);
    }
  }

  lemma InnerShows(x: seq<Endpoint>, y: seq<Endpoint>, z: seq<Endpoint>)
    ensures y != [] ==> Firsts(x + (y + z), {}) != []
  {
    if y != [] {
      var all := x + (y + z);
      FirstsPeers(all, {});
      assert all[0].peer in Peers(all);
    }
  }
}
