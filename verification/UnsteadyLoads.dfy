/**
 Why the second marker load must find the id that was locked. A step on which it does not is the
 only kind that breaks the invariant of ProjectClaims, and from any such step a run leads on to
 what the invariant excludes: a holder whose claim is gone, or a storage move that is lost. Every
 operation in these runs begins with what its first load finds; the markers are replaced between
 the two loads of one command.
 */
module UnsteadyLoads {
  import opened Outcomes
  import opened ProjectClaims
  import opened ProjectRegistry

  /** What the load before an operation finds, so that the operation begins at all. */
  predicate FirstLoad(s: State, phase: Phase) {
    match phase
    case Loaded(c, _) => MarkerNames(s, c.root, c.id) && StorageIs(s.registry, c) && (c.storage, c.id) in s.repositories
    case Claiming(root, id, refresh) =>
      && MarkerNames(s, root, id) && id in s.registry && (s.registry[id].storage, id) in s.repositories
      && var status := StatusOf(s, root, id, s.registry[id]);
         !status.Current? && (refresh ==> status.Moved?)
    case Moving(root, id, _) => MarkerNames(s, root, id)
    case _ => true
  }

  /** The event can happen, and an operation begins only after its first load. */
  predicate Happens(s: State, e: Event) {
    Enabled(s, e) && (e.Start? ==> FirstLoad(s, e.phase))
  }

  ghost predicate Run(s: State, events: seq<Event>)
    decreases |events|
  {
    events == [] || (Happens(s, events[0]) && Run(Apply(s, events[0]), events[1..]))
  }

  ghost function Ends(s: State, events: seq<Event>): State
    requires Run(s, events)
    decreases |events|
  {
    if events == [] then s else Ends(Apply(s, events[0]), events[1..])
  }

  /** Some run leads from `s` to `t`. */
  ghost predicate Reaches(s: State, t: State) {
    exists events :: Run(s, events) && Ends(s, events) == t
  }

  lemma {:induction false} RunOneMore(s: State, events: seq<Event>, e: Event)
    requires Run(s, events) && Happens(Ends(s, events), e)
    ensures Run(s, events + [e]) && Ends(s, events + [e]) == Apply(Ends(s, events), e)
    decreases |events|
  {
    hide Enabled, FirstLoad, Apply;
    if events == [] {
      assert events + [e] == [e];
      assert Run(Apply(s, e), [e][1..]);
    } else {
      RunOneMore(Apply(s, events[0]), events[1..], e);
      assert (events + [e])[1..] == events[1..] + [e];
    }
  }

  lemma Then(s: State, t: State, e: Event)
    requires Reaches(s, t) && Happens(t, e)
    ensures Reaches(s, Apply(t, e))
  {
    hide Happens, Apply;
    var events :| Run(s, events) && Ends(s, events) == t;
    RunOneMore(s, events, e);
  }

  lemma Here(s: State)
    ensures Reaches(s, s)
  {
    assert Run(s, []) && Ends(s, []) == s;
  }

  // ---------------------------------------------------------------- stopping everybody else

  /** Only `p` may hold locks or be at work. */
  ghost predicate Alone(s: State, p: ProcessId) {
    (forall g | g in s.locks :: g.process == p) && forall q | q in s.phases && q != p :: s.phases[q].Idle?
  }

  function AtWork(s: State, p: ProcessId): set<ProcessId> {
    set q | q in s.phases && q != p && !s.phases[q].Idle?
  }

  lemma StopOne(t: State, p: ProcessId, q: ProcessId)
    requires LocksMatch(t) && q in t.phases && q != p && !t.phases[q].Idle?
    ensures var u := Stopped(t, q);
      && LocksMatch(u) && AtWork(u, p) == AtWork(t, p) - {q} && GrantsOf(u.locks, p) == GrantsOf(t.locks, p)
      && PhaseOf(u, p) == PhaseOf(t, p)
  {
    var u := Stopped(t, q);
    forall r: ProcessId
      ensures GrantsOf(u.locks, r) == Required(r, PhaseOf(u, r))
    {
      assert GrantsOf(t.locks, r) == Required(r, PhaseOf(t, r));
      assert GrantsOf(u.locks, r) == if r == q then {} else GrantsOf(t.locks, r);
    }
    assert GrantsOf(u.locks, p) == GrantsOf(t.locks, p);
  }

  lemma NobodyElse(t: State, p: ProcessId)
    requires LocksMatch(t) && AtWork(t, p) == {}
    ensures Alone(t, p) && t.locks == GrantsOf(t.locks, p)
  {
    forall g | g in t.locks
      ensures g.process == p
    {
      var q := g.process;
      assert g in GrantsOf(t.locks, q) && GrantsOf(t.locks, q) == Required(q, PhaseOf(t, q));
      assert q != p ==> q !in AtWork(t, p);
    }
    forall q | q in t.phases && q != p
      ensures t.phases[q].Idle?
    {
      assert q !in AtWork(t, p);
    }
    assert t.locks == GrantsOf(t.locks, p);
  }

  /** Every process but `p` may stop, which changes neither registry nor files. */
  lemma {:induction false} StopOthers(s: State, t: State, p: ProcessId) returns (u: State)
    requires Reaches(s, t) && LocksMatch(t)
    ensures Reaches(s, u) && Alone(u, p) && LocksMatch(u)
    ensures u.locks == GrantsOf(t.locks, p) && PhaseOf(u, p) == PhaseOf(t, p)
    ensures u.registry == t.registry && u.markers == t.markers && u.repositories == t.repositories
    decreases AtWork(t, p)
  {
    hide Reaches, LocksMatch, Alone;
    if AtWork(t, p) == {} {
      NobodyElse(t, p);
      u := t;
    } else {
      var q :| q in AtWork(t, p);
      Then(s, t, Stop(q));
      StopOne(t, p, q);
      u := StopOthers(s, Stopped(t, q), p);
    }
  }

  /** `id` is registered for `home` and its repository exists. */
  predicate Settled(s: State, id: ProjectId, home: Root, storage: StorageRoot) {
    id in s.registry && s.registry[id] == Claim(home, storage) && (storage, id) in s.repositories
  }

  predicate Free(s: State, p: ProcessId) {
    p !in s.phases || s.phases[p].Idle?
  }

  /** A process starts and gets its first lock. */
  lemma FirstLock(s: State, t: State, p: ProcessId, phase: Phase) returns (u: State)
    requires Reaches(s, t) && Free(t, p) && IsStart(phase) && FirstLoad(t, phase) && Wanted(phase).Some?
    requires Grantable(t.locks, Wanted(phase).value.resource, Wanted(phase).value.exclusive)
    ensures Reaches(s, u)
    ensures u == t.(phases := t.phases[p := AfterGrant(phase)], locks := t.locks + {WantedBy(p, phase)})
  {
    Then(s, t, Start(p, phase));
    var a := Apply(t, Start(p, phase));
    Then(s, a, Advance(p));
    u := Apply(a, Advance(p));
    assert t.phases[p := phase][p := AfterGrant(phase)] == t.phases[p := AfterGrant(phase)];
  }

  /** The marker of `locked` has moved to `root`, so that a claim there begins. */
  lemma MarkerMoves(s: State, t: State, root: Root, former: Root, storage: StorageRoot, locked: ProjectId,
                    refresh: bool)
    returns (u: State)
    requires Reaches(s, t) && Settled(t, locked, former, storage) && root != former
    ensures Reaches(s, u) && FirstLoad(u, Claiming(root, locked, refresh))
    ensures u.locks == t.locks && u.registry == t.registry && u.repositories == t.repositories && u.phases == t.phases
    ensures former !in u.markers
  {
    Then(s, t, RemoveMarker(former));
    var a := Apply(t, RemoveMarker(former));
    Then(s, a, PlaceMarker(root, Marker(locked)));
    u := Apply(a, PlaceMarker(root, Marker(locked)));
  }

  /** A process at the registered home takes the repository. */
  lemma HolderArrives(s: State, t: State, q: ProcessId, home: Root, storage: StorageRoot, id: ProjectId)
    returns (u: State)
    requires Reaches(s, t) && Free(t, q) && Settled(t, id, home, storage)
    requires forall g | g in t.locks :: g.resource != Location(id) && g.resource != Repository(storage, id)
    ensures Reaches(s, u) && u.registry == t.registry && u.repositories == t.repositories
    ensures u.phases == t.phases[q := Holding(Context(id, home, storage), true)]
    ensures u.locks == t.locks + {Grant(q, Location(id), false), Grant(q, Repository(storage, id), true)}
  {
    hide Happens, Apply;
    var context := Context(id, home, storage);
    var a := MarkerPlaced(s, t, home, id);
    var c := FirstLock(s, a, q, Loaded(context, true));
    assert c.phases[q] == Located(context, true) && c.locks == t.locks + {Grant(q, Location(id), false)};
    u := RepositoryTaken(s, c, q, context);
    assert u.phases == t.phases[q := Holding(context, true)];
  }

  lemma MarkerPlaced(s: State, t: State, root: Root, id: ProjectId) returns (u: State)
    requires Reaches(s, t)
    ensures Reaches(s, u) && u == t.(markers := t.markers[root := Marker(id)])
  {
    Then(s, t, PlaceMarker(root, Marker(id)));
    u := Apply(t, PlaceMarker(root, Marker(id)));
  }

  lemma RepositoryTaken(s: State, t: State, q: ProcessId, c: Context) returns (u: State)
    requires Reaches(s, t) && q in t.phases && t.phases[q] == Located(c, true) && BindingValid(t, c, true)
    requires forall g | g in t.locks :: g.resource != Repository(c.storage, c.id)
    ensures Reaches(s, u)
    ensures u
      == t.(phases := t.phases[q := RepositoryLocked(c, true)][q := Holding(c, true)], locks :=
      t.locks + {Grant(q, Repository(c.storage, c.id), true)})
  {
    Then(s, t, Advance(q));
    var d := Apply(t, Advance(q));
    assert d == t.(phases := t.phases[q := RepositoryLocked(c, true)], locks :=
      t.locks + {Grant(q, Repository(c.storage, c.id), true)});
    Then(s, d, Advance(q));
    u := Apply(d, Advance(q));
  }

  lemma ClaimReads(s: State, t: State, p: ProcessId, locked: ProjectId, c: Context) returns (u: State)
    requires Reaches(s, t) && p in t.phases && t.phases[p] == ClaimReloaded(locked, c)
    requires forall g | g in t.locks :: g.resource != RegistryFile
    ensures Reaches(s, u) && u.registry == t.registry && p in u.phases
      && u.phases == t.phases[p := ClaimRead(locked, c, t.registry)]
  {
    Then(s, t, Advance(p));
    var a := Apply(t, Advance(p));
    assert a.phases[p] == ClaimRegistry(locked, c);
    Then(s, a, Advance(p));
    u := Apply(a, Advance(p));
  }

  /** The claim is written with no regard to the location of the id written. */
  lemma ClaimLands(s: State, t: State, p: ProcessId, locked: ProjectId, c: Context) returns (u: State)
    requires Reaches(s, t) && p in t.phases && t.phases[p] == ClaimReloaded(locked, c)
    requires forall g | g in t.locks :: g.resource != RegistryFile
    ensures Reaches(s, u) && u.registry == t.registry[c.id := Claim(c.root, c.storage)]
    ensures u.phases == t.phases[p := Idle]
  {
    var a := ClaimReads(s, t, p, locked, c);
    Then(s, a, Advance(p));
    u := Apply(a, Advance(p));
    assert u.phases == t.phases[p := Idle];
  }

  /** A claim of an id other than the locked one can break the claim of a holder that comes meanwhile. */
  lemma SlippedClaim(s: State, t: State, p: ProcessId, q: ProcessId, home: Root, locked: ProjectId, c: Context)
    returns (v: State)
    requires Reaches(s, t) && p in t.phases && t.phases[p] == ClaimReloaded(locked, c) && locked != c.id
    requires p != q && Free(t, q) && forall g | g in t.locks :: g.resource == Location(locked)
    requires Settled(t, c.id, home, c.storage) && c.root != home
    ensures Reaches(s, v) && !ClaimsHold(v)
  {
    hide Apply, Happens, Reaches, ClaimsHold;
    var b := HolderArrives(s, t, q, home, c.storage, c.id);
    v := ClaimLands(s, b, p, locked, c);
    HolderLost(v, q, Context(c.id, home, c.storage));
  }

  lemma OnlyLocation(t: State, a: State, p: ProcessId, locked: ProjectId, c: Context)
    requires LocksMatch(t) && (PhaseOf(t, p) == ClaimReloaded(locked, c) || PhaseOf(t, p) == MoveReloaded(locked, c))
      && a.locks == GrantsOf(t.locks, p)
    requires Alone(a, p) && PhaseOf(a, p) == PhaseOf(t, p)
    ensures forall g | g in a.locks :: g.resource == Location(locked)
    ensures p in a.phases && forall q: ProcessId | q != p :: Free(a, q)
  {
    assert GrantsOf(t.locks, p) == Required(p, PhaseOf(t, p));
  }

  lemma HolderLost(s: State, p: ProcessId, c: Context)
    requires PhaseOf(s, p) == Holding(c, true) && !ClaimHolds(s, c)
    ensures !ClaimsHold(s)
  {
  }

  /** A confirmation at `root`, steady itself, is ready to write the storage it read. */
  lemma ClaimPrepares(s: State, t: State, q: ProcessId, root: Root, home: Root, storage: StorageRoot, id: ProjectId)
    returns (u: State)
    requires Reaches(s, t) && Free(t, q) && Settled(t, id, home, storage) && root != home
    requires forall g | g in t.locks :: g.resource != Location(id)
    ensures Reaches(s, u) && u.registry == t.registry && u.repositories == t.repositories && home !in u.markers
    ensures u.phases == t.phases[q := ClaimReloaded(id, Context(id, root, storage))]
    ensures u.locks == t.locks + {Grant(q, Location(id), true)}
  {
    hide Happens, Apply;
    var a := MarkerMoves(s, t, root, home, storage, id, false);
    var c := FirstLock(s, a, q, Claiming(root, id, false));
    u := ClaimReloads(s, c, q, root, storage, id);
    assert u.phases == t.phases[q := ClaimReloaded(id, Context(id, root, storage))];
  }

  lemma ClaimReloads(s: State, t: State, q: ProcessId, root: Root, storage: StorageRoot, id: ProjectId)
    returns (u: State)
    requires Reaches(s, t) && q in t.phases && t.phases[q] == ClaimLocked(root, id, false)
    requires FirstLoad(t, Claiming(root, id, false)) && t.registry[id].storage == storage
    ensures Reaches(s, u) && u == t.(phases := t.phases[q := ClaimReloaded(id, Context(id, root, storage))])
  {
    Then(s, t, Advance(q));
    u := Apply(t, Advance(q));
  }

  lemma RegistryIsLocked(s: State, t: State, p: ProcessId, locked: ProjectId, c: Context) returns (u: State)
    requires Reaches(s, t) && p in t.phases && t.phases[p] == MoveReloaded(locked, c)
    requires forall g | g in t.locks :: g.resource.Location?
    ensures Reaches(s, u)
      && u == t.(phases := t.phases[p := MoveRegistry(locked, c)], locks := t.locks + {Grant(p, RegistryFile, true)})
  {
    Then(s, t, Advance(p));
    u := Apply(t, Advance(p));
  }

  lemma NextRepository(s: State, t: State, p: ProcessId, locked: ProjectId, c: Context, held: seq<Resource>,
                       remaining: seq<Resource>)
    returns (u: State)
    requires Reaches(s, t) && p in t.phases && t.phases[p] == MoveRead(locked, c, t.registry, held, remaining)
    requires remaining != [] && forall g | g in t.locks :: g.resource != remaining[0]
    ensures Reaches(s, u)
    ensures u == t.(phases := t.phases[p := MoveRead(locked, c, t.registry, held + [remaining[0]], remaining[1..])],
                    locks := t.locks + {Grant(p, remaining[0], true)})
  {
    Then(s, t, Advance(p));
    u := Apply(t, Advance(p));
  }

  lemma MoveReads(s: State, t: State, p: ProcessId, home: Root, storage: StorageRoot, locked: ProjectId, c: Context)
    returns (u: State)
    requires Reaches(s, t) && p in t.phases && t.phases[p] == MoveRegistry(locked, c)
    requires Settled(t, c.id, home, storage) && home !in t.markers && (c.storage, c.id) in t.repositories
    ensures Reaches(s, u)
    ensures u
      == t.(phases :=
      t.phases[p :=
        MoveRead(locked, c, t.registry, [],
        RepositoryOrder(Some(Repository(storage, c.id)), Repository(c.storage, c.id)))])
  {
    Then(s, t, Advance(p));
    u := Apply(t, Advance(p));
  }

  lemma MoveWrites(s: State, t: State, p: ProcessId, locked: ProjectId, c: Context, held: seq<Resource>)
    returns (u: State)
    requires Reaches(s, t) && p in t.phases && t.phases[p] == MoveRead(locked, c, t.registry, held, [])
    ensures Reaches(s, u) && u.registry == t.registry[c.id := Claim(c.root, c.storage)]
      && u.phases == t.phases[p := Idle]
    ensures forall g | g in u.locks :: g in t.locks && g.process != p
  {
    Then(s, t, Advance(p));
    u := Apply(t, Advance(p));
  }

  /** The move commits its storage. */
  lemma MoveLands(s: State, t: State, p: ProcessId, home: Root, storage: StorageRoot, locked: ProjectId, c: Context)
    returns (u: State)
    requires Reaches(s, t) && p in t.phases && t.phases[p] == MoveReloaded(locked, c)
    requires Settled(t, c.id, home, storage) && c.storage != storage && (c.storage, c.id) in t.repositories
      && home !in t.markers
    requires forall g | g in t.locks :: g.resource.Location?
    ensures Reaches(s, u) && u.registry == t.registry[c.id := Claim(c.root, c.storage)]
    ensures u.phases == t.phases[p := Idle] && forall g | g in u.locks :: g.resource.Location?
  {
    hide Apply, Happens, Reaches;
    var a := RegistryIsLocked(s, t, p, locked, c);
    var b := MoveReads(s, a, p, home, storage, locked, c);
    var order := RepositoryOrder(Some(Repository(storage, c.id)), Repository(c.storage, c.id));
    assert |order| == 2 && order[0] != order[1] && order[0].Repository? && order[1].Repository?;
    var d := NextRepository(s, b, p, locked, c, [], order);
    var e := NextRepository(s, d, p, locked, c, [] + [order[0]], order[1..]);
    u := MoveWrites(s, e, p, locked, c, ([] + [order[0]]) + [order[1]]);
  }

  /** The storage chosen by the move of `c` is recorded, and then the former one again. */
  ghost predicate MoveLost(s: State, c: Context, storage: StorageRoot, registry: Registry) {
    exists t, u, root ::
      Reaches(s, t) && t.registry == registry[c.id := Claim(c.root, c.storage)]
      && Reaches(t, u) && u.registry == registry[c.id := Claim(root, storage)]
  }

  /** A move of an id other than the locked one can be undone by a confirmation that only records a location. */
  lemma SlippedMove(s: State, t: State, p: ProcessId, q: ProcessId, root: Root, home: Root, storage: StorageRoot,
                    locked: ProjectId, c: Context)
    requires Reaches(s, t) && p in t.phases && t.phases[p] == MoveReloaded(locked, c) && locked != c.id
    requires p != q && Free(t, q) && forall g | g in t.locks :: g.resource == Location(locked)
    requires c.id in t.registry && t.registry[c.id] == Claim(home, storage) && storage != c.storage && root != home
    ensures MoveLost(s, c, storage, t.registry)
  {
    hide Apply, Reaches;
    var a := RepositoryPlaced(s, t, storage, c.id);
    var b := RepositoryPlaced(s, a, c.storage, c.id);
    var d := ClaimPrepares(s, b, q, root, home, storage, c.id);
    var e := MoveLands(s, d, p, home, storage, locked, c);
    Here(e);
    var u := ClaimLands(e, e, q, c.id, Context(c.id, root, storage));
    assert u.registry == t.registry[c.id := Claim(root, storage)];
    assert Reaches(s, e) && e.registry == t.registry[c.id := Claim(c.root, c.storage)];
  }

  lemma RepositoryPlaced(s: State, t: State, storage: StorageRoot, id: ProjectId) returns (u: State)
    requires Reaches(s, t)
    ensures Reaches(s, u) && u == t.(repositories := t.repositories + {(storage, id)})
  {
    Then(s, t, PlaceRepository(storage, id));
    u := Apply(t, PlaceRepository(storage, id));
  }

  // ---------------------------------------------------------------- steadiness is exactly what is needed

  /** The id named by a readable marker at `root`. */
  function FoundAt(s: State, root: Root): Option<ProjectId> {
    if root in s.markers && s.markers[root].Marker? then Some(s.markers[root].id) else None
  }

  /**
   The marker now names an id that is not the locked one and with which the operation could have
   begun. For a claim that id must be registered elsewhere, with its repository in place.
   */
  predicate Slips(s: State, e: Event) {
    Enabled(s, e) && e.Advance? &&
    match s.phases[e.p]
    case ClaimLocked(root, locked, refresh) =>
      var found := FoundAt(s, root);
      found.Some? && found.value != locked && FirstLoad(s, Claiming(root, found.value, refresh))
    case MoveLocked(root, locked, _) =>
      var found := FoundAt(s, root);
      found.Some? && found.value != locked
    case _ => false
  }

  /** Then, and only then, the second load goes on with an id other than the locked one. */
  lemma SlipsGoOn(s: State, e: Event)
    requires Enabled(s, e)
    ensures Slips(s, e) <==>
      e.Advance? && (s.phases[e.p].ClaimLocked? || s.phases[e.p].MoveLocked?) &&
      var after := PhaseOf(Apply(s, e), e.p);
      (after.ClaimReloaded? || after.MoveReloaded?) && after.context.id != after.locked
  {
  }

  lemma UnsteadySteps(s: State, e: Event)
    requires Enabled(s, e) && !Steady(s, e) && !Slips(s, e)
    ensures e.Advance? && Apply(s, e) == Stopped(s, e.p)
  {
  }

  lemma SlippedPhase(s: State, e: Event)
    requires Enabled(s, e) && Slips(s, e)
    ensures e.Advance? && !Knows(Apply(s, e).registry, PhaseOf(Apply(s, e), e.p)) && !Steady(s, e)
    ensures Apply(s, e).locks == s.locks && Apply(s, e).registry == s.registry
    ensures GrantsOf(s.locks, e.p) == Required(e.p, PhaseOf(s, e.p)) ==>
      GrantsOf(Apply(s, e).locks, e.p) == Required(e.p, PhaseOf(Apply(s, e), e.p))
    ensures forall q: ProcessId | q != e.p :: PhaseOf(Apply(s, e), q) == PhaseOf(s, q)
  {
  }

  /** Of all enabled steps exactly those that slip break the invariant. */
  lemma SlipsAreExact(s: State, e: Event)
    requires Inv(s) && Enabled(s, e)
    ensures Inv(Apply(s, e)) <==> !Slips(s, e)
  {
    hide Apply, Enabled, Slips, Steady, Knows, Required;
    if Slips(s, e) {
      SlippedPhase(s, e);
      assert !AllKnow(Apply(s, e));
    } else if Steady(s, e) {
      StepKeepsInvariant(s, e);
    } else {
      UnsteadySteps(s, e);
      StopKeeps(s, e.p);
    }
  }

  lemma LocksStillMatch(s: State, e: Event)
    requires Inv(s) && Enabled(s, e) && Slips(s, e)
    ensures LocksMatch(Apply(s, e))
  {
    hide Apply, Enabled, Slips, Knows, Required;
    SlippedPhase(s, e);
    var t := Apply(s, e);
    forall p: ProcessId
      ensures GrantsOf(t.locks, p) == Required(p, PhaseOf(t, p))
    {
      assert GrantsOf(s.locks, p) == Required(p, PhaseOf(s, p));
    }
  }

  lemma SlippedClaimFinds(s: State, e: Event)
    requires Enabled(s, e) && Slips(s, e) && s.phases[e.p].ClaimLocked?
    ensures e.Advance?
    ensures var t := Apply(s, e);
      && e.p in t.phases && t.phases[e.p].ClaimReloaded?
        && t.phases[e.p].locked == s.phases[e.p].id != t.phases[e.p].context.id
      && var c := t.phases[e.p].context;
         c.id in t.registry && Settled(t, c.id, t.registry[c.id].root, c.storage) && c.root != t.registry[c.id].root
  {
  }

  /** From any claim that slips, wherever it happens, a run leads to a holder whose claim is gone. */
  lemma UnsteadyClaimBreaksHolder(s: State, e: Event)
    requires Inv(s) && Enabled(s, e) && Slips(s, e) && s.phases[e.p].ClaimLocked?
    ensures exists v :: Reaches(Apply(s, e), v) && !ClaimsHold(v)
  {
    hide Apply, Enabled, Slips, Reaches, ClaimsHold, Inv, LocksMatch, Alone;
    var t := Apply(s, e);
    SlippedClaimFinds(s, e);
    LocksStillMatch(s, e);
    Here(t);
    var locked, c := t.phases[e.p].locked, t.phases[e.p].context;
    var a := StopOthers(t, t, e.p);
    OnlyLocation(t, a, e.p, locked, c);
    var v := SlippedClaim(t, a, e.p, e.p + 1, t.registry[c.id].root, locked, c);
  }

  lemma SlippedMoveFinds(s: State, e: Event)
    requires Enabled(s, e) && Slips(s, e) && s.phases[e.p].MoveLocked?
    ensures e.Advance?
    ensures var MoveLocked(root, locked, next) := s.phases[e.p];
      && FoundAt(s, root).Some? && FoundAt(s, root).value != locked
      && var t := Apply(s, e);
         e.p in t.phases && t.phases[e.p] == MoveReloaded(locked, Context(FoundAt(s, root).value, root, next))
  {
  }

  /** From any move that slips onto a project stored elsewhere, a run loses the storage the move chose. */
  lemma UnsteadyMoveIsLost(s: State, e: Event, root: Root, found: ProjectId, locked: ProjectId, next: StorageRoot)
    requires Inv(s) && Enabled(s, e) && Slips(s, e) && s.phases[e.p] == MoveLocked(root, locked, next)
    requires FoundAt(s, root) == Some(found) && found in s.registry && s.registry[found].storage != next
    ensures MoveLost(Apply(s, e), Context(found, root, next), s.registry[found].storage, s.registry)
  {
    hide Apply, Enabled, Slips, Reaches, Inv, LocksMatch, Alone, MoveLost, FoundAt;
    var t := Apply(s, e);
    SlippedMoveFinds(s, e);
    SlippedPhase(s, e);
    LocksStillMatch(s, e);
    Here(t);
    var c := t.phases[e.p].context;
    assert c == Context(found, root, next);
    var a := StopOthers(t, t, e.p);
    OnlyLocation(t, a, e.p, locked, c);
    var home := t.registry[c.id].root;
    SlippedMove(t, a, e.p, e.p + 1, home + 1, home, t.registry[c.id].storage, locked, c);
  }

  // ---------------------------------------------------------------- and such steps can come

  /**
   From any state with two settled projects a claim can slip, whose first load found the one and
   whose second load finds the other.
   */
  lemma ClaimCanSlip(s: State, p: ProcessId, root: Root, former: Root, formerStorage: StorageRoot, home: Root,
                     storage: StorageRoot, locked: ProjectId, other: ProjectId, refresh: bool)
    returns (u: State)
    requires Inv(s) && Free(s, p) && locked != other
    requires Settled(s, locked, former, formerStorage) && Settled(s, other, home, storage) && root != former
      && root != home
    ensures Reaches(s, u) && Slips(u, Advance(p)) && PhaseOf(u, p).ClaimLocked?
  {
    hide Apply, Reaches, Inv, Required, Knows, Happens, Slips;
    var a := Quiesce(s, p);
    var b := MarkerMoves(s, a, root, former, formerStorage, locked, refresh);
    var c := FirstLock(s, b, p, Claiming(root, locked, refresh));
    u := MarkerMoves(s, c, root, home, storage, other, true);
    ClaimAboutToSlip(u, p, root, locked, other, refresh);
  }

  lemma ClaimAboutToSlip(u: State, p: ProcessId, root: Root, locked: ProjectId, other: ProjectId, refresh: bool)
    requires p in u.phases && u.phases[p] == ClaimLocked(root, locked, refresh) && locked != other
    requires FirstLoad(u, Claiming(root, other, true))
    ensures Slips(u, Advance(p))
  {
  }

  /** And so can a move. */
  lemma MoveCanSlip(s: State, p: ProcessId, root: Root, next: StorageRoot, locked: ProjectId, other: ProjectId)
    returns (u: State)
    requires Inv(s) && Free(s, p) && locked != other
    ensures Reaches(s, u) && Slips(u, Advance(p)) && PhaseOf(u, p) == MoveLocked(root, locked, next)
      && u.registry == s.registry
    ensures PhaseOf(Apply(u, Advance(p)), p) == MoveReloaded(locked, Context(other, root, next))
  {
    hide Reaches, Inv, Required, Knows;
    var a := Quiesce(s, p);
    Then(s, a, PlaceMarker(root, Marker(locked)));
    var b := Apply(a, PlaceMarker(root, Marker(locked)));
    var c := FirstLock(s, b, p, Moving(root, locked, next));
    Then(s, c, PlaceMarker(root, Marker(other)));
    u := Apply(c, PlaceMarker(root, Marker(other)));
  }

  /** Everybody may stop. */
  lemma Quiesce(s: State, p: ProcessId) returns (u: State)
    requires Inv(s) && Free(s, p)
    ensures Reaches(s, u) && u.locks == {} && Free(u, p)
    ensures u.registry == s.registry && u.markers == s.markers && u.repositories == s.repositories
  {
    hide Reaches, Alone, Knows;
    Here(s);
    assert GrantsOf(s.locks, p) == Required(p, PhaseOf(s, p));
    u := StopOthers(s, s, p);
  }
}
