/** Skill routing with a TTL cache of discovery answers (internal/anycast/router.go, cache.go). */
module Routes {
  import opened Discovery
  import opened Time

  datatype Entry = Entry(endpoints: seq<Endpoint>, expiresAt: int)

  type Entries = map<string, Entry>

  /** An entry is good up to and including its expiry time. */
  function Cached(entries: Entries, skill: string, now: int): seq<Endpoint> {
    if skill !in entries || now > entries[skill].expiresAt then [] else entries[skill].endpoints
  }

  function Stored(entries: Entries, skill: string, endpoints: seq<Endpoint>, now: int, ttl: int): Entries {
    entries[skill := Entry(endpoints, now + ttl)]
  }

  class RouteCache {
    var entries: Entries
    const ttl: int

    constructor (ttl: int)
      ensures entries == map[] && this.ttl == ttl
    {
      entries := map[];
      this.ttl := ttl;
    }

    method Get(skill: string, now: int) returns (endpoints: seq<Endpoint>)
      ensures endpoints == Cached(entries, skill, now)
    {
      if skill !in entries || now > entries[skill].expiresAt {
        return [];
      }
      endpoints := entries[skill].endpoints;
    }

    method Put(skill: string, endpoints: seq<Endpoint>, now: int)
      modifies this
      ensures entries == Stored(old(entries), skill, endpoints, now, ttl)
    {
      entries := entries[skill := Entry(endpoints, now + ttl)];
    }

    method Invalidate(skill: string)
      modifies this
      ensures entries == old(entries) - {skill}
    {
      entries := entries - {skill};
    }

    method Clear()
      modifies this
      ensures entries == map[]
    {
      entries := map[];
    }
  }

  // ---- The router ----

  /** A strategy's choice among candidates: an index, or an error. */
  datatype Choice = NoChoice | Pick(k: nat)

  datatype Reply =
    | Peer(peer: string)
    | Listed(endpoints: seq<Endpoint>)
    | DiscoverFailed(error: string)
    | NoAgents
    | SelectFailed

  predicate Chooses(choice: Choice, endpoints: seq<Endpoint>) {
    choice.Pick? ==> choice.k < |endpoints|
  }

  predicate Hits(entries: Entries, skill: string, now: int, choice: Choice) {
    Cached(entries, skill, now) != [] && choice.Pick?
  }

  function HitReply(entries: Entries, skill: string, now: int, choice: Choice): Reply
    requires Hits(entries, skill, now, choice) && Chooses(choice, Cached(entries, skill, now))
  {
    Peer(Cached(entries, skill, now)[choice.k].peer)
  }

  /** What a call returns for an answer with endpoints: Resolve its choice, Discover all of them. */
  function AnswerReply(endpoints: seq<Endpoint>, choice: Choice, resolving: bool): Reply
    requires Chooses(choice, endpoints)
  {
    if !resolving then Listed(endpoints) else if choice.Pick? then Peer(endpoints[choice.k].peer) else SelectFailed
  }

  /** What it returns for any other answer. */
  function EmptyReply(answer: Answer, resolving: bool): Reply {
    match answer
    case Failed(error) => DiscoverFailed(error)
    case Found(_) => if resolving then NoAgents else Listed([])
  }

  predicate Useful(answer: Answer) {
    answer.Found? && answer.endpoints != []
  }

  /** Without the entry of a skill, or without any for the empty skill. */
  function Dropped(entries: Entries, skill: string): Entries {
    if skill == "" then map[] else entries - {skill}
  }

  class Router {
    const cache: RouteCache

    constructor (ttl: int)
      ensures fresh(cache) && cache.entries == map[]
      ensures cache.ttl == if ttl == 0 then 30 * SECOND else ttl
    {
      cache := new RouteCache(if ttl == 0 then 30 * SECOND else ttl);
    }

    /**
     * `meanwhile` is the table as other goroutines leave it while discovery is asked, which takes until `later`;
     * `answer` is what discovery then says, `fromCache` and `fromAnswer` are what the strategy picks.
     */
    method Resolve(skill: string, now: int, fromCache: Choice,
                   meanwhile: Entries, answer: Answer, later: int, fromAnswer: Choice)
        returns (reply: Reply)
      requires Chooses(fromCache, Cached(cache.entries, skill, now))
      requires Useful(answer) ==> Chooses(fromAnswer, answer.endpoints)
      modifies cache
      ensures Hits(old(cache.entries), skill, now, fromCache) ==>
                reply == HitReply(old(cache.entries), skill, now, fromCache) && cache.entries == old(cache.entries)
      ensures !Hits(old(cache.entries), skill, now, fromCache) ==>
                if Useful(answer) then
                  && reply == AnswerReply(answer.endpoints, fromAnswer, true)
                  && cache.entries == Stored(meanwhile, skill, answer.endpoints, later, cache.ttl)
                else reply == EmptyReply(answer, true) && cache.entries == meanwhile
    {
      var endpoints := cache.Get(skill, now);
      if |endpoints| > 0 && fromCache.Pick? {
        return Peer(endpoints[fromCache.k].peer);
      }
      cache.entries := meanwhile;
      if answer.Failed? {
        return DiscoverFailed(answer.error);
      }
      endpoints := answer.endpoints;
      if |endpoints| == 0 {
        return NoAgents;
      }
      cache.Put(skill, endpoints, later);
      if fromAnswer.NoChoice? {
        return SelectFailed;
      }
      reply := Peer(endpoints[fromAnswer.k].peer);
    }

    method Discover(skill: string, meanwhile: Entries, answer: Answer, later: int) returns (reply: Reply)
      modifies cache
      ensures if Useful(answer) then
                && reply == AnswerReply(answer.endpoints, NoChoice, false)
                && cache.entries == Stored(meanwhile, skill, answer.endpoints, later, cache.ttl)
              else reply == EmptyReply(answer, false) && cache.entries == meanwhile
    {
      cache.entries := meanwhile;
      if answer.Failed? {
        return DiscoverFailed(answer.error);
      }
      if |answer.endpoints| > 0 {
        cache.Put(skill, answer.endpoints, later);
      }
      reply := Listed(answer.endpoints);
    }

    method InvalidateCache(skill: string)
      modifies cache
      ensures cache.entries == Dropped(old(cache.entries), skill)
    {
      if skill == "" {
        cache.Clear();
      } else {
        cache.Invalidate(skill);
      }
    }
  }

  // ---- Concurrent calls ----

  /** `of` is the place in the log of the answer that is stored. */
  datatype Event =
    | Answered(skill: string, endpoints: seq<Endpoint>, at: int)
    | Kept(skill: string, endpoints: seq<Endpoint>, at: int, of: nat)
    | Invalidated(skill: string)

  /** A call is asking discovery, holds an answer it has yet to store, or has returned. */
  datatype Call =
    | Asking(skill: string, resolving: bool)
    | Holding(skill: string, endpoints: seq<Endpoint>, resolving: bool, of: nat)
    | Returned(reply: Reply)

  datatype State = State(clock: int, entries: Entries, calls: map<nat, Call>, log: seq<Event>)

  /** Any number of Resolve and Discover calls, between their accesses to the cache. */
  datatype Step =
    | Tick(dt: nat)
    | Lookup(call: nat, skill: string, choice: Choice)
    | Ask(call: nat, skill: string)
    | Answer(call: nat, answer: Discovery.Answer)
    | Keep(call: nat, choice: Choice)
    | Invalidate(skill: string)

  predicate Enabled(s: State, step: Step) {
    match step
    case Tick(_) => true
    case Lookup(c, skill, choice) => c !in s.calls && Chooses(choice, Cached(s.entries, skill, s.clock))
    case Ask(c, _) => c !in s.calls
    case Answer(c, _) => c in s.calls && s.calls[c].Asking?
    case Keep(c, choice) => c in s.calls && s.calls[c].Holding? && Chooses(choice, s.calls[c].endpoints)
    case Invalidate(_) => true
  }

  function Next(s: State, ttl: int, step: Step): State
    requires Enabled(s, step)
  {
    match step
    case Tick(dt) => s.(clock := s.clock + dt)
    case Lookup(c, skill, choice) =>
      s.(calls := s.calls[c := if Hits(s.entries, skill, s.clock, choice)
                               then Returned(HitReply(s.entries, skill, s.clock, choice)) else Asking(skill, true)])
    case Ask(c, skill) => s.(calls := s.calls[c := Asking(skill, false)])
    case Answer(c, answer) =>
      var call := s.calls[c];
      if Useful(answer) then
        s.(calls := s.calls[c := Holding(call.skill, answer.endpoints, call.resolving, |s.log|)],
           log := s.log + [Answered(call.skill, answer.endpoints, s.clock)])
      else s.(calls := s.calls[c := Returned(EmptyReply(answer, call.resolving))])
    case Keep(c, choice) =>
      var call := s.calls[c];
      s.(entries := Stored(s.entries, call.skill, call.endpoints, s.clock, ttl),
         calls := s.calls[c := Returned(AnswerReply(call.endpoints, choice, call.resolving))],
         log := s.log + [Kept(call.skill, call.endpoints, s.clock, call.of)])
    case Invalidate(skill) => s.(entries := Dropped(s.entries, skill), log := s.log + [Invalidated(skill)])
  }

  /** The step makes Resolve return `peer` for the skill, from the cache or from a fresh answer. */
  predicate Resolves(s: State, step: Step, skill: string, peer: string)
    requires Enabled(s, step)
  {
    match step
    case Lookup(_, looked, choice) =>
      && looked == skill && Hits(s.entries, skill, s.clock, choice)
      && HitReply(s.entries, skill, s.clock, choice) == Peer(peer)
    case Keep(c, choice) =>
      var call := s.calls[c];
      call.resolving && call.skill == skill && AnswerReply(call.endpoints, choice, true) == Peer(peer)
    case _ => false
  }

  // ---- What the log says ----

  predicate Covers(e: Event, skill: string) {
    e.Invalidated? && (e.skill == "" || e.skill == skill)
  }

  predicate Supersedes(e: Event, skill: string) {
    (e.Kept? && e.skill == skill) || Covers(e, skill)
  }

  /** The answer stored last for the skill, unless it was invalidated since. */
  ghost predicate IsCurrent(log: seq<Event>, skill: string, i: int) {
    && 0 <= i < |log| && log[i].Kept? && log[i].skill == skill
    && forall j | i < j < |log| :: !Supersedes(log[j], skill)
  }

  /** The last non-empty answer of discovery for the skill, with no invalidation after it. */
  ghost predicate IsNewest(log: seq<Event>, skill: string, a: int) {
    && 0 <= a < |log| && log[a].Answered? && log[a].skill == skill
    && forall j | a < j < |log| :: !(log[j].Answered? && log[j].skill == skill) && !Covers(log[j], skill)
  }

  /** An entry holds the current answer, until `ttl` after it was stored. */
  ghost predicate Holds(entry: Entry, log: seq<Event>, ttl: int, skill: string, i: int) {
    IsCurrent(log, skill, i) && entry == Entry(log[i].endpoints, log[i].at + ttl)
  }

  /** The cache holds exactly the current answers. */
  ghost predicate Mirrors(entries: Entries, log: seq<Event>, ttl: int) {
    && (forall skill <- entries :: exists i :: Holds(entries[skill], log, ttl, skill, i))
    && (forall skill, i | IsCurrent(log, skill, i) :: skill in entries)
  }

  predicate IsAnswer(log: seq<Event>, a: nat, skill: string, endpoints: seq<Endpoint>, latest: int) {
    a < |log| && log[a].Answered? && log[a].skill == skill && log[a].endpoints == endpoints && log[a].at <= latest
  }

  /** Every stored answer came before, with what was stored, and no event lies in the future. */
  ghost predicate LogFits(log: seq<Event>, clock: int) {
    && (forall i | 0 <= i < |log| && log[i].Answered? :: log[i].at <= clock && log[i].endpoints != [])
    && (forall i | 0 <= i < |log| && log[i].Kept? ::
          log[i].at <= clock && log[i].of < i && IsAnswer(log, log[i].of, log[i].skill, log[i].endpoints, log[i].at))
  }

  ghost predicate CallsFit(s: State) {
    forall c <- s.calls | s.calls[c].Holding? ::
      IsAnswer(s.log, s.calls[c].of, s.calls[c].skill, s.calls[c].endpoints, s.clock)
  }

  ghost predicate IsStored(log: seq<Event>, a: nat) {
    exists m :: a < m < |log| && log[m].Kept? && log[m].of == a
  }

  ghost predicate IsHeld(calls: map<nat, Call>, a: nat) {
    exists c :: c in calls && calls[c].Holding? && calls[c].of == a
  }

  /** No answer is forgotten: it has been stored, or some call holds it. */
  ghost predicate Accounted(s: State) {
    forall a: nat | a < |s.log| && s.log[a].Answered? :: IsStored(s.log, a) || IsHeld(s.calls, a)
  }

  ghost predicate Inv(s: State, ttl: int) {
    Mirrors(s.entries, s.log, ttl) && LogFits(s.log, s.clock) && CallsFit(s) && Accounted(s)
  }

  predicate Offers(endpoints: seq<Endpoint>, peer: string) {
    exists k :: 0 <= k < |endpoints| && endpoints[k].peer == peer
  }

  // ---- The cache mirrors the log ----

  lemma CurrentAfter(log: seq<Event>, e: Event, skill: string, i: int)
    requires 0 <= i < |log|
    ensures IsCurrent(log + [e], skill, i) <==> IsCurrent(log, skill, i) && !Supersedes(e, skill)
  {
    var longer := log + [e];
    assert longer[|log|] == e && longer[i] == log[i];
    if IsCurrent(longer, skill, i) {
      forall j | i < j < |log| ensures !Supersedes(log[j], skill) {
        assert longer[j] == log[j];
      }
    }
  }

  /** Any event: what it supersedes leaves the table, what it stores enters, the rest stays. */
  lemma EventMirrored(entries: Entries, entries': Entries, log: seq<Event>, ttl: int, e: Event)
    requires Mirrors(entries, log, ttl)
    requires forall s :: s in entries' <==> (e.Kept? && e.skill == s) || (s in entries && !Supersedes(e, s))
    requires forall s <- entries' ::
      if e.Kept? && e.skill == s then entries'[s] == Entry(e.endpoints, e.at + ttl)
      else s in entries && entries'[s] == entries[s]
    ensures Mirrors(entries', log + [e], ttl)
  {
    forall s <- entries' ensures exists i :: Holds(entries'[s], log + [e], ttl, s, i) {
      if e.Kept? && e.skill == s {
        assert Holds(entries'[s], log + [e], ttl, s, |log|);
      } else {
        var i :| Holds(entries[s], log, ttl, s, i);
        CurrentAfter(log, e, s, i);
        assert Holds(entries'[s], log + [e], ttl, s, i);
      }
    }
    forall s, i | IsCurrent(log + [e], s, i) ensures s in entries' {
      if i < |log| {
        CurrentAfter(log, e, s, i);
      }
    }
  }

  /** There is one current answer at most, so "the" one is meant. */
  lemma CurrentIsUnique(log: seq<Event>, skill: string, i: int, j: int)
    requires IsCurrent(log, skill, i) && IsCurrent(log, skill, j)
    ensures i == j
  {
    assert Supersedes(log[i], skill) && Supersedes(log[j], skill);
  }

  lemma StepMirrors(s: State, ttl: int, step: Step)
    requires Inv(s, ttl) && Enabled(s, step)
    ensures Mirrors(Next(s, ttl, step).entries, Next(s, ttl, step).log, ttl)
  {
    var s' := Next(s, ttl, step);
    if s'.log != s.log {
      EventMirrored(s.entries, s'.entries, s.log, ttl, s'.log[|s.log|]);
    }
    hide Mirrors, LogFits, CallsFit, Hits;
  }

  lemma StoredStays(log: seq<Event>, e: Event, a: nat)
    requires IsStored(log, a)
    ensures IsStored(log + [e], a)
  {
    var m :| a < m < |log| && log[m].Kept? && log[m].of == a;
    assert (log + [e])[m] == log[m];
  }

  lemma StepAccounted(s: State, ttl: int, step: Step)
    requires Inv(s, ttl) && Enabled(s, step)
    ensures Accounted(Next(s, ttl, step))
  {
    var s' := Next(s, ttl, step);
    forall a: nat | a < |s'.log| && s'.log[a].Answered? ensures IsStored(s'.log, a) || IsHeld(s'.calls, a) {
      if a == |s.log| {
        assert step.Answer? && s'.calls[step.call].Holding? && s'.calls[step.call].of == a;
      } else if IsStored(s.log, a) {
        if s'.log != s.log {
          StoredStays(s.log, s'.log[|s.log|], a);
        }
      } else {
        var c :| c in s.calls && s.calls[c].Holding? && s.calls[c].of == a;
        if step.Keep? && step.call == c {
          assert s'.log[|s.log|].Kept? && s'.log[|s.log|].of == a;
        } else {
          assert c in s'.calls && s'.calls[c] == s.calls[c];
        }
      }
    }
    hide Mirrors, LogFits, Hits;
  }

  lemma StepInv(s: State, ttl: int, step: Step)
    requires Inv(s, ttl) && Enabled(s, step)
    ensures Inv(Next(s, ttl, step), ttl)
  {
    StepMirrors(s, ttl, step);
    StepAccounted(s, ttl, step);
    hide Mirrors, Hits, Accounted;
  }

  // ---- Whole runs ----

  ghost predicate IsRun(states: seq<State>, steps: seq<Step>, ttl: int) {
    && |states| == |steps| + 1 && states[0] == State(states[0].clock, map[], map[], [])
    && (forall k | 0 <= k < |steps| :: Enabled(states[k], steps[k]) && states[k + 1] == Next(states[k], ttl, steps[k]))
  }

  lemma {:induction false} RunInv(states: seq<State>, steps: seq<Step>, ttl: int, k: nat)
    requires IsRun(states, steps, ttl) && k < |states|
    ensures Inv(states[k], ttl)
  {
    if k > 0 {
      RunInv(states, steps, ttl, k - 1);
      StepInv(states[k - 1], ttl, steps[k - 1]);
      hide Inv, Next, Enabled;
    }
  }

  /**
   * In every run a resolved peer belongs to the answer stored last for the skill: nothing covering the skill was
   * invalidated since it was stored, and that was at most `ttl` ago.
   */
  lemma ResolvedPeerIsCurrent(states: seq<State>, steps: seq<Step>, ttl: int, k: nat, skill: string, peer: string)
      returns (i: nat)
    requires IsRun(states, steps, ttl) && k < |steps| && Resolves(states[k], steps[k], skill, peer)
    ensures var log, now := states[k + 1].log, states[k + 1].clock;
            && IsCurrent(log, skill, i) && Offers(log[i].endpoints, peer)
            && log[i].of < i && IsAnswer(log, log[i].of, skill, log[i].endpoints, log[i].at)
            && log[i].at <= now && (now <= log[i].at + ttl || log[i].at == now)
  {
    RunInv(states, steps, ttl, k);
    RunInv(states, steps, ttl, k + 1);
    var s := states[k];
    if steps[k].Lookup? {
      i :| Holds(s.entries[skill], s.log, ttl, skill, i);
    } else {
      i := |s.log|;
    }
    hide Mirrors, CallsFit;
  }

  /**
   * In every run, what a call returns at each of its steps: from the cache, the endpoint that the strategy picked out
   * of the answer stored last; from a fresh answer, the one picked out of that, or all of it for Discover; and
   * otherwise which of the errors.
   */
  lemma RepliesExactly(states: seq<State>, steps: seq<Step>, ttl: int, k: nat)
    requires IsRun(states, steps, ttl) && k < |steps|
    ensures var s, s' := states[k], states[k + 1];
            match steps[k]
            case Lookup(c, skill, choice) =>
              if Hits(s.entries, skill, s.clock, choice) then
                exists i :: IsCurrent(s.log, skill, i) && choice.k < |s.log[i].endpoints|
                            && s'.calls[c] == Returned(Peer(s.log[i].endpoints[choice.k].peer))
              else s'.calls[c] == Asking(skill, true)
            case Answer(c, Failed(error)) => s'.calls[c] == Returned(DiscoverFailed(error))
            case Answer(c, Found(endpoints)) =>
              var call := s.calls[c];
              if endpoints != [] then s'.calls[c] == Holding(call.skill, endpoints, call.resolving, |s.log|)
              else s'.calls[c] == Returned(if call.resolving then NoAgents else Listed([]))
            case Keep(c, choice) =>
              var call := s.calls[c];
              if !call.resolving then s'.calls[c] == Returned(Listed(call.endpoints))
              else if choice.NoChoice? then s'.calls[c] == Returned(SelectFailed)
              else choice.k < |call.endpoints| && s'.calls[c] == Returned(Peer(call.endpoints[choice.k].peer))
            case _ => true
  {
    RunInv(states, steps, ttl, k);
    var s := states[k];
    if steps[k].Lookup? && Hits(s.entries, steps[k].skill, s.clock, steps[k].choice) {
      var i :| Holds(s.entries[steps[k].skill], s.log, ttl, steps[k].skill, i);
      assert IsCurrent(s.log, steps[k].skill, i);
    }
    hide Mirrors, LogFits, CallsFit, Accounted;
  }

  /**
   * Between a stored answer's arrival and its storing nothing covering the skill was invalidated and no other answer
   * for it came, and no call now holds a newer one.
   */
  ghost predicate Undisturbed(s: State, skill: string, i: int)
    requires 0 <= i < |s.log| && s.log[i].Kept?
  {
    && (forall j | s.log[i].of < j < i :: !Covers(s.log[j], skill) && !(s.log[j].Answered? && s.log[j].skill == skill))
    && (forall c <- s.calls | s.calls[c].Holding? && s.calls[c].skill == skill :: s.calls[c].of <= s.log[i].of)
  }

  /** What follows the storing of a current answer: no invalidation of it, and answers only in the hands of calls. */
  lemma AfterCurrent(s: State, ttl: int, skill: string, i: nat, j: nat)
    requires Inv(s, ttl) && IsCurrent(s.log, skill, i) && i < j < |s.log|
    ensures !Covers(s.log[j], skill)
    ensures s.log[j].Answered? && s.log[j].skill == skill ==> IsHeld(s.calls, j)
  {
    assert !Supersedes(s.log[j], skill);
  }

  /**
   * Discovery is asked without the lock, so an answer can be stored after it has been invalidated or overtaken. A
   * resolved peer comes from the most recent answer, later than every invalidation covering the skill, if and only if
   * its answer was stored undisturbed and no call holds a newer one.
   */
  lemma FreshExactlyIfUndisturbed(states: seq<State>, steps: seq<Step>, ttl: int, k: nat, skill: string, peer: string)
      returns (i: nat)
    requires IsRun(states, steps, ttl) && k < |steps| && Resolves(states[k], steps[k], skill, peer)
    ensures var log := states[k + 1].log;
            && IsCurrent(log, skill, i) && Offers(log[i].endpoints, peer)
            && (IsNewest(log, skill, log[i].of) <==> Undisturbed(states[k + 1], skill, i))
  {
    i := ResolvedPeerIsCurrent(states, steps, ttl, k, skill, peer);
    RunInv(states, steps, ttl, k + 1);
    NewestExactly(states[k + 1], ttl, skill, i);
    hide Next, Enabled, Resolves, Offers, Undisturbed, IsNewest;
  }

  lemma NewestExactly(s: State, ttl: int, skill: string, i: nat)
    requires Inv(s, ttl) && IsCurrent(s.log, skill, i)
    requires s.log[i].of < i && IsAnswer(s.log, s.log[i].of, skill, s.log[i].endpoints, s.log[i].at)
    ensures IsNewest(s.log, skill, s.log[i].of) <==> Undisturbed(s, skill, i)
  {
    var a := s.log[i].of;
    if Undisturbed(s, skill, i) {
      forall j | a < j < |s.log| ensures !(s.log[j].Answered? && s.log[j].skill == skill) && !Covers(s.log[j], skill) {
        if j > i {
          AfterCurrent(s, ttl, skill, i, j);
          if IsHeld(s.calls, j) {
            var c :| c in s.calls && s.calls[c].Holding? && s.calls[c].of == j;
            assert s.log[j].skill == s.calls[c].skill;
          }
        }
      }
    }
    if IsNewest(s.log, skill, a) {
      forall c | c in s.calls && s.calls[c].Holding? && s.calls[c].skill == skill ensures s.calls[c].of <= a {
        assert IsAnswer(s.log, s.calls[c].of, skill, s.calls[c].endpoints, s.clock);
      }
    }
    hide Mirrors, LogFits, Accounted, IsCurrent, Supersedes;
  }

  /** Every answer is stored at once, as if asking discovery and storing were one step. */
  ghost predicate StoredAtOnce(log: seq<Event>) {
    && (forall j | 0 <= j < |log| && log[j].Answered? ::
          j + 1 < |log| && log[j + 1] == Kept(log[j].skill, log[j].endpoints, log[j].at, j))
    && (forall i | 0 <= i < |log| && log[i].Kept? :: i > 0 && log[i].of == i - 1)
  }

  /**
   * With atomic Resolve and Discover a resolved peer belongs to the most recent non-empty answer for the skill, which
   * is later than every invalidation covering the skill and at most `ttl` old.
   */
  lemma ResolvedPeerIsFresh(states: seq<State>, steps: seq<Step>, ttl: int, k: nat, skill: string, peer: string)
      returns (a: nat)
    requires IsRun(states, steps, ttl) && k < |steps| && Resolves(states[k], steps[k], skill, peer)
    requires StoredAtOnce(states[k + 1].log)
    ensures var log, now := states[k + 1].log, states[k + 1].clock;
            && IsNewest(log, skill, a) && Offers(log[a].endpoints, peer)
            && log[a].at <= now && (now <= log[a].at + ttl || log[a].at == now)
  {
    var i := ResolvedPeerIsCurrent(states, steps, ttl, k, skill, peer);
    var log := states[k + 1].log;
    a := log[i].of;
    assert log[a + 1] == Kept(log[a].skill, log[a].endpoints, log[a].at, a);
    forall j | a < j < |log| ensures !(log[j].Answered? && log[j].skill == skill) && !Covers(log[j], skill) {
      if j > i {
        assert !Supersedes(log[j], skill) && (j + 1 < |log| ==> !Supersedes(log[j + 1], skill));
      }
    }
    hide Next, Enabled, Resolves, Offers;
  }

  /** In every run, discovery is spared exactly when the current answer has not expired and a choice can be made. */
  lemma HitsExactlyWhileCurrent(states: seq<State>, steps: seq<Step>, ttl: int, k: nat, skill: string, choice: Choice)
    requires IsRun(states, steps, ttl) && k < |states|
    ensures var s := states[k];
            Hits(s.entries, skill, s.clock, choice) <==>
              choice.Pick? && exists i :: IsCurrent(s.log, skill, i) && s.clock <= s.log[i].at + ttl
  {
    RunInv(states, steps, ttl, k);
    var s := states[k];
    if skill in s.entries {
      var i :| Holds(s.entries[skill], s.log, ttl, skill, i);
      forall j | IsCurrent(s.log, skill, j) ensures j == i {
        CurrentIsUnique(s.log, skill, i, j);
      }
      assert s.log[i].endpoints != [];
    }
  }

  /**
   * A run in which an invalidation falls between the answer and its storing: the stale answer is cached and then
   * served, though nothing was answered since the invalidation.
   */
  lemma StaleAfterInvalidation(skill: string, e: Endpoint, ttl: nat) returns (states: seq<State>, steps: seq<Step>)
    ensures IsRun(states, steps, ttl) && |steps| == 5 && Resolves(states[4], steps[4], skill, e.peer)
    ensures forall a :: !IsNewest(states[5].log, skill, a)
  {
    var s0 := State(0, map[], map[], []);
    steps := [Lookup(0, skill, NoChoice), Answer(0, Found([e])), Invalidate(skill), Keep(0, Pick(0)),
              Lookup(1, skill, Pick(0))];
    var s1 := Next(s0, ttl, steps[0]);
    var s2 := Next(s1, ttl, steps[1]);
    var s3 := Next(s2, ttl, steps[2]);
    var s4 := Next(s3, ttl, steps[3]);
    var s5 := Next(s4, ttl, steps[4]);
    states := [s0, s1, s2, s3, s4, s5];
    assert s5.log == [Answered(skill, [e], 0), Invalidated(skill), Kept(skill, [e], 0, 0)];
    assert Covers(s5.log[1], skill);
  }
}
