/**
 Projects that were moved or copied (project.rs, storage_root_setting.rs): what each operation of
 ProjectClaims does with one, said in terms of the registry and the markers alone. A copy never
 takes the project away from the original unless somebody says so; a project that moved is
 recorded at its new place; and whatever is not refused gets done.
 */
module CopiedProjects {
  import opened Outcomes
  import opened ProjectClaims
  import opened ProjectRegistry

  // ---------------------------------------------------------------- single steps

  /** The registered directory of `id` is not this one, and its marker still names `id` or cannot be read. */
  predicate LivesElsewhere(s: State, id: ProjectId, root: Root) {
    && id in s.registry && s.registry[id].root != root && s.registry[id].root in s.markers
    && (s.markers[s.registry[id].root] == Marker(id) || s.markers[s.registry[id].root] == UnsafeMarker)
  }

  /** The marker of a directory that is registered elsewhere, with its repository. */
  predicate FoundAway(s: State, root: Root, id: ProjectId) {
    && root in s.markers && s.markers[root] == Marker(id)
    && id in s.registry && s.registry[id].root != root && (s.registry[id].storage, id) in s.repositories
  }

  /** Opening a copy changes nothing; opening a project that moved goes on to record its new place. */
  lemma RefreshTellsCopiesApart(s: State, p: ProcessId, root: Root, locked: ProjectId)
    requires p in s.phases && s.phases[p] == ClaimLocked(root, locked, true)
    ensures var next := Apply(s, Advance(p));
      if root in s.markers && s.markers[root].Marker? && FoundAway(s, root, s.markers[root].id)
         && !LivesElsewhere(s, s.markers[root].id, root)
      then
        var id := s.markers[root].id;
        next == s.(phases := s.phases[p := ClaimReloaded(locked, Context(id, root, s.registry[id].storage))])
      else
        next == Stopped(s, p)
  {
  }

  /** The user's own confirmation is the one way to move a claim while the original is there. */
  lemma ConfirmationGoesOn(s: State, p: ProcessId, root: Root, locked: ProjectId)
    requires p in s.phases && s.phases[p] == ClaimLocked(root, locked, false)
    ensures var next := Apply(s, Advance(p));
      if root in s.markers && s.markers[root].Marker? && FoundAway(s, root, s.markers[root].id) then
        var id := s.markers[root].id;
        next == s.(phases := s.phases[p := ClaimReloaded(locked, Context(id, root, s.registry[id].storage))])
      else
        next == Stopped(s, p)
  {
  }

  /**
   Initializing a directory: refused if its marker changed since it was first read, or if it is a
   copy. Otherwise it goes on with the storage already registered, or else with the requested one,
   and a directory without a marker is given one first.
   */
  lemma InitRefusesCopies(s: State, p: ProcessId, root: Root, existing: Option<ProjectId>, target: ProjectId,
                          storage: StorageRoot, held: seq<ProjectId>)
    requires p in s.phases && s.phases[p] == InitRegistry(root, existing, target, false, storage, held)
    ensures var next := Apply(s, Advance(p));
      var asRead := if existing.Some? then root in s.markers && s.markers[root] == Marker(existing.value)
                    else root !in s.markers;
      if !asRead || LivesElsewhere(s, target, root) then next == Stopped(s, p)
      else
        && (existing.None? ==> next.markers == s.markers[root := Marker(target)])
        && (existing.Some? ==> next.markers == s.markers)
        && next.registry == s.registry && next.repositories == s.repositories && next.locks == s.locks
        && var used := if target in s.registry then s.registry[target].storage else storage;
           next.phases == s.phases[p := InitRead(Context(target, root, used), false, held, s.registry)]
  {
  }

  /** Starting anew: the old marker must still be there, and the new id must not be in use elsewhere. */
  lemma ForcedInitNeedsItsMarker(s: State, p: ProcessId, root: Root, existing: Option<ProjectId>, target: ProjectId,
                                 storage: StorageRoot, held: seq<ProjectId>)
    requires p in s.phases && s.phases[p] == InitRegistry(root, existing, target, true, storage, held)
    ensures var next := Apply(s, Advance(p));
      if existing.None? || root !in s.markers || s.markers[root] != Marker(existing.value)
         || (target in s.registry && s.registry[target].root != root)
      then next == Stopped(s, p)
      else
        var used := if target in s.registry then s.registry[target].storage else storage;
        next == s.(phases := s.phases[p := InitRead(Context(target, root, used), true, held, s.registry)])
  {
  }

  /** Moving the storage of a copy is refused, and so is moving it to where no repository is. */
  lemma MoveRefusesCopies(s: State, p: ProcessId, locked: ProjectId, c: Context)
    requires p in s.phases && s.phases[p] == MoveRegistry(locked, c)
    ensures var next := Apply(s, Advance(p));
      if c.id !in s.registry || LivesElsewhere(s, c.id, c.root) || (c.storage, c.id) !in s.repositories
      then next == Stopped(s, p)
      else
        && next == s.(phases := next.phases) && p in next.phases && next.phases[p].MoveRead?
        && next.phases == s.phases[p := next.phases[p]]
        && var read := next.phases[p];
           && read.locked == locked && read.context == c && read.snapshot == s.registry && read.heldRepositories == []
           && (forall r :: r in read.remainingRepositories <==>
                 r == Repository(c.storage, c.id)
                 || (r == Repository(s.registry[c.id].storage, c.id)
                     && (s.registry[c.id].storage, c.id) in s.repositories))
  {
  }

  /** A repository is entered exactly if it is the registered one, its directory says so, and, to change it, owns it. */
  lemma HolderIsEntitled(s: State, p: ProcessId, c: Context, exclusive: bool)
    requires p in s.phases && s.phases[p] == RepositoryLocked(c, exclusive)
    ensures var entitled :=
        && c.id in s.registry && s.registry[c.id].storage == c.storage
          && (exclusive ==> s.registry[c.id].root == c.root)
        && c.root in s.markers && s.markers[c.root] == Marker(c.id) && (c.storage, c.id) in s.repositories;
      Apply(s, Advance(p)) == if entitled then s.(phases := s.phases[p := Holding(c, exclusive)]) else Stopped(s, p)
  {
  }

  /** A stop gives back every lock and nothing else. */
  lemma StopReleases(s: State, p: ProcessId)
    ensures var next := Stopped(s, p);
      && next.registry == s.registry && next.markers == s.markers && next.repositories == s.repositories
      && next.phases == s.phases[p := Idle]
      && (forall g :: g in next.locks <==> g in s.locks && g.process != p)
  {
  }

  // ---------------------------------------------------------------- the original keeps its project

  /** The registered directory of `id`. */
  predicate OwnedBy(registry: Registry, id: ProjectId, home: Root) {
    id in registry && registry[id].root == home
  }

  /** A process that will not take `id` away from `home`: no confirmation elsewhere, no new start at home. */
  predicate Harmless(phase: Phase, id: ProjectId, home: Root) {
    match phase
    case Claiming(root, _, refresh) => refresh || root == home
    case ClaimLocked(root, _, refresh) => refresh || root == home
    case ClaimReloaded(_, c) => c.id != id
    case ClaimRegistry(_, c) => c.id != id
    case ClaimRead(_, c, snapshot) => c.id != id && OwnedBy(snapshot, id, home)
    case Initializing(root, _, _, forced, _, _, _) => !forced || root != home
    case InitRegistry(root, _, _, forced, _, _) => !forced || root != home
    case InitRead(c, forced, _, snapshot) =>
      (c.id == id ==> c.root == home) && (!forced || c.root != home) && OwnedBy(snapshot, id, home)
    case InitMarker(root, _, _) => root != home
    case MoveRead(_, c, snapshot, _, _) => (c.id == id ==> c.root == home) && OwnedBy(snapshot, id, home)
    case _ => true
  }

  predicate Identifies(marker: MarkerFile, id: ProjectId) {
    marker == Marker(id) || marker == UnsafeMarker
  }

  /** The project is registered at home, its marker is there, and everybody at work is harmless. */
  ghost predicate Guarded(s: State, id: ProjectId, home: Root) {
    && OwnedBy(s.registry, id, home) && home in s.markers && Identifies(s.markers[home], id)
    && forall p | p in s.phases :: Harmless(s.phases[p], id, home)
  }

  /** Whatever users and processes do, short of confirming another place or taking the marker from home. */
  predicate Permitted(e: Event, id: ProjectId, home: Root) {
    match e
    case Start(_, phase) => Harmless(phase, id, home)
    case PlaceMarker(root, marker) => root == home ==> Identifies(marker, id)
    case RemoveMarker(root) => root != home
    case _ => true
  }

  lemma ProceedStaysHarmless(s: State, p: ProcessId, id: ProjectId, home: Root)
    requires Guarded(s, id, home) && p in s.phases
    ensures var next := Proceed(s, p);
      && OwnedBy(next.registry, id, home) && home in next.markers && Identifies(next.markers[home], id)
      && p in next.phases && Harmless(next.phases[p], id, home)
      && next.phases == s.phases[p := next.phases[p]]
  {
    assert Harmless(s.phases[p], id, home);
    match s.phases[p]
    case ClaimLocked(root, locked, true) =>
      RefreshTellsCopiesApart(s, p, root, locked);
    case ClaimLocked(root, locked, false) =>
      ConfirmationGoesOn(s, p, root, locked);
    case InitRegistry(root, existing, target, false, storage, held) =>
      InitRefusesCopies(s, p, root, existing, target, storage, held);
    case InitRegistry(root, existing, target, true, storage, held) =>
      ForcedInitNeedsItsMarker(s, p, root, existing, target, storage, held);
    case MoveRegistry(locked, c) =>
      MoveRefusesCopies(s, p, locked, c);
    case _ =>
  }

  lemma GrantStaysHarmless(phase: Phase, id: ProjectId, home: Root)
    requires Harmless(phase, id, home) && Wanted(phase).Some?
    ensures Harmless(AfterGrant(phase), id, home)
  {
  }

  lemma StepStaysGuarded(s: State, e: Event, id: ProjectId, home: Root)
    requires Guarded(s, id, home) && Enabled(s, e) && Permitted(e, id, home)
    ensures Guarded(Apply(s, e), id, home)
  {
    hide Harmless, Proceed, Wanted, AfterGrant;
    match e
    case Advance(p) =>
      assert Harmless(s.phases[p], id, home);
      if Wanted(s.phases[p]).Some? {
        GrantStaysHarmless(s.phases[p], id, home);
      } else {
        ProceedStaysHarmless(s, p, id, home);
      }
    case Stop(p) =>
      IdleIsHarmless(id, home);
    case _ =>
  }

  lemma IdleIsHarmless(id: ProjectId, home: Root)
    ensures Harmless(Idle, id, home)
  {
  }

  /**
   A copy never takes the project away: over every run, with any number of processes that open,
   initialize and move projects anywhere, the registered directory stays what it is, as long as
   its marker stays and nobody confirms another place or starts anew there. This needs no other
   premise: not even that second loads find the locked id.
   */
  lemma {:induction false} OriginalKeepsItsProject(s: State, events: seq<Event>, id: ProjectId, home: Root)
    requires Guarded(s, id, home) && RunEnabled(s, events) && forall e | e in events :: Permitted(e, id, home)
    ensures Guarded(Final(s, events), id, home)
    ensures OwnedBy(Final(s, events).registry, id, home)
    decreases |events|
  {
    hide Guarded, Apply, Permitted;
    if events == [] {
      GuardedIsOwned(s, id, home);
    } else {
      assert Permitted(events[0], id, home);
      StepStaysGuarded(s, events[0], id, home);
      OriginalKeepsItsProject(Apply(s, events[0]), events[1..], id, home);
    }
  }

  /** So nobody but the registered directory ever works on the project's history exclusively. */
  lemma OnlyHomeHolds(s: State, events: seq<Event>, id: ProjectId, home: Root, p: ProcessId)
    requires Initial(s) && OwnedBy(s.registry, id, home) && home in s.markers && Identifies(s.markers[home], id)
    requires RunEnabled(s, events) && RunSteady(s, events) && forall e | e in events :: Permitted(e, id, home)
    ensures var phase := PhaseOf(Final(s, events), p);
      phase.Holding? && phase.exclusive && phase.context.id == id ==> phase.context.root == home
  {
    hide Final, RunEnabled, RunSteady, Permitted, Identifies;
    assert Guarded(s, id, home) by {
      IdleIsHarmless(id, home);
    }
    OriginalKeepsItsProject(s, events, id, home);
    ClaimsHoldInEveryRun(s, events);
    if PhaseOf(Final(s, events), p).Holding? && PhaseOf(Final(s, events), p).exclusive {
      assert ClaimHolds(Final(s, events), PhaseOf(Final(s, events), p).context);
    }
  }

  lemma GuardedIsOwned(s: State, id: ProjectId, home: Root)
    requires Guarded(s, id, home)
    ensures OwnedBy(s.registry, id, home)
  {
  }

  // ---------------------------------------------------------------- what is not refused gets done

  /** `n` steps of `p` lead from `s` to `t`, and nothing stands in their way. */
  ghost predicate Leads(s: State, p: ProcessId, n: nat, t: State)
    decreases n
  {
    if n == 0 then t == s else Enabled(s, Advance(p)) && Leads(Apply(s, Advance(p)), p, n - 1, t)
  }

  lemma {:induction false} LeadsOn(s: State, p: ProcessId, n: nat, t: State)
    requires Leads(s, p, n, t) && Enabled(t, Advance(p))
    ensures Leads(s, p, n + 1, Apply(t, Advance(p)))
    decreases n
  {
    hide Enabled, Apply;
    if n > 0 {
      LeadsOn(Apply(s, Advance(p)), p, n - 1, t);
    } else {
      assert Leads(Apply(s, Advance(p)), p, 0, Apply(t, Advance(p)));
    }
  }

  /** The state `s` with `p` in this phase, and with these locks only. */
  function At(s: State, p: ProcessId, phase: Phase, locks: set<Grant>): State {
    s.(phases := s.phases[p := phase], locks := locks)
  }

  lemma GrantMoves(s: State, u: State, p: ProcessId, n: nat, phase: Phase, locks: set<Grant>)
    requires Leads(u, p, n, At(s, p, phase, locks)) && Wanted(phase).Some?
    requires forall g | g in locks :: g.resource != Wanted(phase).value.resource
    ensures Leads(u, p, n + 1, At(s, p, AfterGrant(phase), locks + {WantedBy(p, phase)}))
  {
    hide Leads;
    var t := At(s, p, phase, locks);
    LeadsOn(u, p, n, t);
    assert Apply(t, Advance(p)) == At(s, p, AfterGrant(phase), locks + {WantedBy(p, phase)});
  }

  lemma ProceedMoves(s: State, u: State, p: ProcessId, n: nat, phase: Phase, locks: set<Grant>)
    requires Leads(u, p, n, At(s, p, phase, locks)) && Wanted(phase).None? && !phase.Idle?
    ensures Leads(u, p, n + 1, Apply(At(s, p, phase, locks), Advance(p)))
    ensures Enabled(At(s, p, phase, locks), Advance(p))
  {
    hide Leads;
    LeadsOn(u, p, n, At(s, p, phase, locks));
  }

  /** Nobody holds a lock, and `p` has nothing else to do. */
  predicate Unhindered(s: State, p: ProcessId) {
    s.locks == {} && (p !in s.phases || s.phases[p].Idle?)
  }

  lemma Begins(s: State, p: ProcessId, phase: Phase) returns (u: State)
    requires Unhindered(s, p) && IsStart(phase)
    ensures Enabled(s, Start(p, phase)) && u == Apply(s, Start(p, phase)) && Leads(u, p, 0, At(s, p, phase, {}))
  {
    u := Apply(s, Start(p, phase));
    assert u == At(s, p, phase, {});
  }

  /** The last step of an operation releases every lock. */
  lemma AllReleased(s: State, p: ProcessId, locks: set<Grant>)
    requires forall g | g in locks :: g.process == p
    ensures locks - GrantsOf(locks, p) == {}
  {
  }

  /** The user opens, or confirms, a directory whose project is registered elsewhere. */
  lemma ClaimIsRecorded(s: State, p: ProcessId, root: Root, id: ProjectId, refresh: bool) returns (t: State)
    requires Unhindered(s, p) && FoundAway(s, root, id) && (refresh ==> !LivesElsewhere(s, id, root))
    ensures Enabled(s, Start(p, Claiming(root, id, refresh)))
    ensures Leads(Apply(s, Start(p, Claiming(root, id, refresh))), p, 5, t)
    ensures t == At(s, p, Idle, {}).(registry := s.registry[id := Claim(root, s.registry[id].storage)])
  {
    hide Leads, Enabled, Apply, LivesElsewhere;
    var c := Context(id, root, s.registry[id].storage);
    var place, file := Grant(p, Location(id), true), Grant(p, RegistryFile, true);
    var u := Begins(s, p, Claiming(root, id, refresh));
    GrantMoves(s, u, p, 0, Claiming(root, id, refresh), {});
    assert {} + {place} == {place};
    ProceedMoves(s, u, p, 1, ClaimLocked(root, id, refresh), {place});
    ClaimGoesOn(s, p, root, id, refresh, {place});
    GrantMoves(s, u, p, 2, ClaimReloaded(id, c), {place});
    ProceedMoves(s, u, p, 3, ClaimRegistry(id, c), {place} + {file});
    RegistryIsRead(s, p, id, c, {place} + {file});
    ProceedMoves(s, u, p, 4, ClaimRead(id, c, s.registry), {place} + {file});
    ClaimIsWritten(s, p, id, c, {place} + {file});
    t := Apply(At(s, p, ClaimRead(id, c, s.registry), {place} + {file}), Advance(p));
  }

  lemma ClaimGoesOn(s: State, p: ProcessId, root: Root, id: ProjectId, refresh: bool, locks: set<Grant>)
    requires FoundAway(s, root, id) && (refresh ==> !LivesElsewhere(s, id, root))
    requires Enabled(At(s, p, ClaimLocked(root, id, refresh), locks), Advance(p))
    ensures Apply(At(s, p, ClaimLocked(root, id, refresh), locks), Advance(p))
         == At(s, p, ClaimReloaded(id, Context(id, root, s.registry[id].storage)), locks)
  {
  }

  lemma RegistryIsRead(s: State, p: ProcessId, id: ProjectId, c: Context, locks: set<Grant>)
    requires Enabled(At(s, p, ClaimRegistry(id, c), locks), Advance(p))
    ensures Apply(At(s, p, ClaimRegistry(id, c), locks), Advance(p)) == At(s, p, ClaimRead(id, c, s.registry), locks)
  {
  }

  lemma ClaimIsWritten(s: State, p: ProcessId, id: ProjectId, c: Context, locks: set<Grant>)
    requires Enabled(At(s, p, ClaimRead(id, c, s.registry), locks), Advance(p))
    requires forall g | g in locks :: g.process == p
    ensures Apply(At(s, p, ClaimRead(id, c, s.registry), locks), Advance(p))
         == At(s, p, Idle, {}).(registry := s.registry[c.id := Claim(c.root, c.storage)])
  {
    AllReleased(s, p, locks);
  }

  /** The registered directory enters its repository. */
  lemma RepositoryIsEntered(s: State, p: ProcessId, c: Context, exclusive: bool) returns (t: State)
    requires Unhindered(s, p) && c.id in s.registry && s.registry[c.id].storage == c.storage
    requires exclusive ==> s.registry[c.id].root == c.root
    requires c.root in s.markers && s.markers[c.root] == Marker(c.id) && (c.storage, c.id) in s.repositories
    ensures Enabled(s, Start(p, Loaded(c, exclusive)))
    ensures Leads(Apply(s, Start(p, Loaded(c, exclusive))), p, 3, t)
    ensures t == At(s, p, Holding(c, exclusive), t.locks)
  {
    hide Leads, Enabled, Apply;
    var place, repository := Grant(p, Location(c.id), false), Grant(p, Repository(c.storage, c.id), exclusive);
    var u := Begins(s, p, Loaded(c, exclusive));
    GrantMoves(s, u, p, 0, Loaded(c, exclusive), {});
    assert {} + {place} == {place};
    GrantMoves(s, u, p, 1, Located(c, exclusive), {place});
    ProceedMoves(s, u, p, 2, RepositoryLocked(c, exclusive), {place} + {repository});
    HolderIsEntitled(At(s, p, RepositoryLocked(c, exclusive), {place} + {repository}), p, c, exclusive);
    t := At(s, p, Holding(c, exclusive), {place} + {repository});
    assert At(s, p, RepositoryLocked(c, exclusive), t.locks).phases[p := Holding(c, exclusive)] == t.phases;
  }

  /** A directory is initialized: a new one, or once more one that is not a copy. */
  lemma ProjectIsInitialized(s: State, p: ProcessId, root: Root, existing: Option<ProjectId>, id: ProjectId,
                             storage: StorageRoot)
    returns (t: State)
    requires Unhindered(s, p) && !LivesElsewhere(s, id, root)
    requires if existing.Some? then existing.value == id && root in s.markers && s.markers[root] == Marker(id)
             else root !in s.markers
    ensures var start := Initializing(root, existing, id, false, storage, [], [id]);
      Enabled(s, Start(p, start)) && Leads(Apply(s, Start(p, start)), p, 4, t)
    ensures var used := if id in s.registry then s.registry[id].storage else storage;
      t == At(s, p, Idle, {}).(
        registry := s.registry[id := Claim(root, used)], markers := s.markers[root := Marker(id)],
        repositories := s.repositories + {(used, id)})
  {
    hide Leads, Enabled, Apply, LivesElsewhere;
    var locks := {Grant(p, Location(id), true), Grant(p, RegistryFile, true)};
    var c := Context(id, root, if id in s.registry then s.registry[id].storage else storage);
    var marked := s.(markers := s.markers[root := Marker(id)]);
    var u := InitLocks(s, p, root, existing, id, storage);
    ProceedMoves(s, u, p, 2, InitRegistry(root, existing, id, false, storage, [id]), locks);
    InitGoesOn(s, p, root, existing, id, storage, locks);
    ProceedMoves(marked, u, p, 3, InitRead(c, false, [id], s.registry), locks);
    InitIsWritten(marked, p, c, [id], locks);
    t := Apply(At(marked, p, InitRead(c, false, [id], s.registry), locks), Advance(p));
  }

  lemma InitLocks(s: State, p: ProcessId, root: Root, existing: Option<ProjectId>, id: ProjectId, storage: StorageRoot)
    returns (u: State)
    requires Unhindered(s, p) && (existing.Some? ==> existing.value == id)
    ensures var start := Initializing(root, existing, id, false, storage, [], [id]);
      Enabled(s, Start(p, start)) && u == Apply(s, Start(p, start))
    ensures Leads(u, p, 2, At(s, p, InitRegistry(root, existing, id, false, storage, [id]),
                              {Grant(p, Location(id), true), Grant(p, RegistryFile, true)}))
  {
    hide Leads, Enabled, Apply;
    var start := Initializing(root, existing, id, false, storage, [], [id]);
    var place, file := Grant(p, Location(id), true), Grant(p, RegistryFile, true);
    u := Begins(s, p, start);
    GrantMoves(s, u, p, 0, start, {});
    assert {} + {place} == {place} && [] + [id] == [id] && [id][1..] == [];
    GrantMoves(s, u, p, 1, Initializing(root, existing, id, false, storage, [id], []), {place});
    assert {place} + {file} == {place, file};
  }

  lemma InitGoesOn(s: State, p: ProcessId, root: Root, existing: Option<ProjectId>, id: ProjectId, storage: StorageRoot,
                   locks: set<Grant>)
    requires !LivesElsewhere(s, id, root)
    requires if existing.Some? then existing.value == id && root in s.markers && s.markers[root] == Marker(id)
             else root !in s.markers
    requires Enabled(At(s, p, InitRegistry(root, existing, id, false, storage, [id]), locks), Advance(p))
    ensures var c := Context(id, root, if id in s.registry then s.registry[id].storage else storage);
      Apply(At(s, p, InitRegistry(root, existing, id, false, storage, [id]), locks), Advance(p))
      == At(s.(markers := s.markers[root := Marker(id)]), p, InitRead(c, false, [id], s.registry), locks)
  {
    assert existing.Some? ==> s.markers[root := Marker(id)] == s.markers;
  }

  lemma InitIsWritten(s: State, p: ProcessId, c: Context, held: seq<ProjectId>, locks: set<Grant>)
    requires Enabled(At(s, p, InitRead(c, false, held, s.registry), locks), Advance(p))
    requires forall g | g in locks :: g.process == p
    ensures Apply(At(s, p, InitRead(c, false, held, s.registry), locks), Advance(p))
         == At(s, p, Idle, {}).(
              registry := s.registry[c.id := Claim(c.root, c.storage)],
              repositories := s.repositories + {(c.storage, c.id)})
  {
    AllReleased(s, p, locks);
  }

  /** A directory starts anew under another id: its marker changes last, and the old entry stays. */
  lemma ProjectStartsAnew(s: State, p: ProcessId, root: Root, former: ProjectId, id: ProjectId, storage: StorageRoot)
    returns (t: State)
    requires Unhindered(s, p) && id != former && id !in s.registry && root in s.markers
      && s.markers[root] == Marker(former)
    ensures var start := Initializing(root, Some(former), id, true, storage, [], ClaimIds(id, Some(former)));
      Enabled(s, Start(p, start)) && Leads(Apply(s, Start(p, start)), p, 6, t)
    ensures t == At(s, p, Idle, {}).(
      registry := s.registry[id := Claim(root, storage)], markers := s.markers[root := Marker(id)],
      repositories := s.repositories + {(storage, id)})
  {
    hide Leads, Enabled, Apply;
    var ids := ClaimIds(id, Some(former));
    var locks :=
      {Grant(p, Location(ids[0]), true)} + {Grant(p, Location(ids[1]), true)} + {Grant(p, RegistryFile, true)};
    var c := Context(id, root, storage);
    var written := s.(registry := s.registry[id := Claim(root, storage)],
                      repositories := s.repositories + {(storage, id)});
    var u := AnewLocks(s, p, root, former, id, storage);
    ProceedMoves(s, u, p, 3, InitRegistry(root, Some(former), id, true, storage, ids), locks);
    AnewGoesOn(s, p, root, former, id, storage, ids, locks);
    ProceedMoves(s, u, p, 4, InitRead(c, true, ids, s.registry), locks);
    AnewIsWritten(s, p, c, ids, locks);
    ProceedMoves(written, u, p, 5, InitMarker(root, id, ids), locks);
    MarkerIsWritten(written, p, root, id, ids, locks);
    t := Apply(At(written, p, InitMarker(root, id, ids), locks), Advance(p));
  }

  lemma AnewLocks(s: State, p: ProcessId, root: Root, former: ProjectId, id: ProjectId, storage: StorageRoot)
    returns (u: State)
    requires Unhindered(s, p) && id != former
    ensures var ids := ClaimIds(id, Some(former));
      && |ids| == 2
      && var start := Initializing(root, Some(former), id, true, storage, [], ids);
         && Enabled(s, Start(p, start)) && u == Apply(s, Start(p, start))
         && Leads(u, p, 3, At(s, p, InitRegistry(root, Some(former), id, true, storage, ids),
              {Grant(p, Location(ids[0]), true)} + {Grant(p, Location(ids[1]), true)} + {Grant(p, RegistryFile, true)}))
  {
    hide Leads, Enabled, Apply;
    var ids := ClaimIds(id, Some(former));
    var start := Initializing(root, Some(former), id, true, storage, [], ids);
    var first, second := {Grant(p, Location(ids[0]), true)}, {Grant(p, Location(ids[1]), true)};
    u := Begins(s, p, start);
    GrantMoves(s, u, p, 0, start, {});
    assert {} + first == first && [] + [ids[0]] == [ids[0]] && ids[1..] == [ids[1]];
    GrantMoves(s, u, p, 1, Initializing(root, Some(former), id, true, storage, [ids[0]], [ids[1]]), first);
    assert [ids[0]] + [ids[1]] == ids && [ids[1]][1..] == [];
    GrantMoves(s, u, p, 2, Initializing(root, Some(former), id, true, storage, ids, []), first + second);
  }

  lemma AnewGoesOn(s: State, p: ProcessId, root: Root, former: ProjectId, id: ProjectId, storage: StorageRoot,
                   held: seq<ProjectId>, locks: set<Grant>)
    requires id !in s.registry && root in s.markers && s.markers[root] == Marker(former)
    requires Enabled(At(s, p, InitRegistry(root, Some(former), id, true, storage, held), locks), Advance(p))
    ensures Apply(At(s, p, InitRegistry(root, Some(former), id, true, storage, held), locks), Advance(p))
         == At(s, p, InitRead(Context(id, root, storage), true, held, s.registry), locks)
  {
  }

  lemma AnewIsWritten(s: State, p: ProcessId, c: Context, held: seq<ProjectId>, locks: set<Grant>)
    requires Enabled(At(s, p, InitRead(c, true, held, s.registry), locks), Advance(p))
    ensures Apply(At(s, p, InitRead(c, true, held, s.registry), locks), Advance(p))
         == At(s.(registry := s.registry[c.id := Claim(c.root, c.storage)],
                  repositories := s.repositories + {(c.storage, c.id)}), p, InitMarker(c.root, c.id, held), locks)
  {
  }

  lemma MarkerIsWritten(s: State, p: ProcessId, root: Root, id: ProjectId, held: seq<ProjectId>, locks: set<Grant>)
    requires Enabled(At(s, p, InitMarker(root, id, held), locks), Advance(p))
    requires forall g | g in locks :: g.process == p
    ensures Apply(At(s, p, InitMarker(root, id, held), locks), Advance(p))
         == At(s, p, Idle, {}).(markers := s.markers[root := Marker(id)])
  {
    AllReleased(s, p, locks);
  }

  /** The storage of a project that is no copy moves to where its repository is. */
  lemma StorageIsMoved(s: State, p: ProcessId, root: Root, id: ProjectId, storage: StorageRoot)
    returns (t: State, n: nat)
    requires Unhindered(s, p) && id in s.registry && !LivesElsewhere(s, id, root) && (storage, id) in s.repositories
    requires root in s.markers && s.markers[root] == Marker(id)
    ensures Enabled(s, Start(p, Moving(root, id, storage)))
    ensures n <= 7 && Leads(Apply(s, Start(p, Moving(root, id, storage))), p, n, t)
    ensures t == At(s, p, Idle, {}).(registry := s.registry[id := Claim(root, storage)])
  {
    hide Leads, Enabled, Apply, LivesElsewhere;
    var c := Context(id, root, storage);
    var place, file := Grant(p, Location(id), true), Grant(p, RegistryFile, true);
    var u := Begins(s, p, Moving(root, id, storage));
    GrantMoves(s, u, p, 0, Moving(root, id, storage), {});
    assert {} + {place} == {place};
    ProceedMoves(s, u, p, 1, MoveLocked(root, id, storage), {place});
    MoveReloads(s, p, root, id, storage, {place});
    GrantMoves(s, u, p, 2, MoveReloaded(id, c), {place});
    ProceedMoves(s, u, p, 3, MoveRegistry(id, c), {place} + {file});
    var order := MoveGoesOn(s, p, id, c, {place} + {file});
    t, n := StorageLocksFollow(s, u, p, 4, id, c, [], order, {place} + {file});
  }

  lemma MoveReloads(s: State, p: ProcessId, root: Root, id: ProjectId, storage: StorageRoot, locks: set<Grant>)
    requires root in s.markers && s.markers[root] == Marker(id)
    requires Enabled(At(s, p, MoveLocked(root, id, storage), locks), Advance(p))
    ensures Apply(At(s, p, MoveLocked(root, id, storage), locks), Advance(p))
         == At(s, p, MoveReloaded(id, Context(id, root, storage)), locks)
  {
  }

  lemma MoveGoesOn(s: State, p: ProcessId, id: ProjectId, c: Context, locks: set<Grant>) returns (order: seq<Resource>)
    requires c.id in s.registry && !LivesElsewhere(s, c.id, c.root) && (c.storage, c.id) in s.repositories
    requires Enabled(At(s, p, MoveRegistry(id, c), locks), Advance(p))
    ensures |order| <= 2 && (forall r | r in order :: r.Repository?) && (|order| == 2 ==> order[0] != order[1])
    ensures Apply(At(s, p, MoveRegistry(id, c), locks), Advance(p))
         == At(s, p, MoveRead(id, c, s.registry, [], order), locks)
  {
    var registered := Repository(s.registry[c.id].storage, c.id);
    var former := if (s.registry[c.id].storage, c.id) in s.repositories then Some(registered) else None;
    order := RepositoryOrder(former, Repository(c.storage, c.id));
  }

  lemma {:induction false} StorageLocksFollow(s: State, u: State, p: ProcessId, n: nat, id: ProjectId, c: Context,
                                              held: seq<Resource>, remaining: seq<Resource>, locks: set<Grant>)
    returns (t: State, steps: nat)
    requires Leads(u, p, n, At(s, p, MoveRead(id, c, s.registry, held, remaining), locks))
    requires forall r | r in remaining :: r.Repository? && forall g | g in locks :: g.resource != r
    requires forall i, j | 0 <= i < j < |remaining| :: remaining[i] != remaining[j]
    requires forall g | g in locks :: g.process == p
    ensures steps == n + |remaining| + 1 && Leads(u, p, steps, t)
    ensures t == At(s, p, Idle, {}).(registry := s.registry[c.id := Claim(c.root, c.storage)])
    decreases remaining
  {
    hide Leads, Enabled, Apply;
    var phase := MoveRead(id, c, s.registry, held, remaining);
    if remaining == [] {
      ProceedMoves(s, u, p, n, phase, locks);
      MoveIsWritten(s, p, id, c, held, locks);
      t, steps := Apply(At(s, p, phase, locks), Advance(p)), n + 1;
    } else {
      assert remaining[0] in remaining;
      GrantMoves(s, u, p, n, phase, locks);
      t, steps := StorageLocksFollow(s, u, p, n + 1, id, c, held + [remaining[0]], remaining[1..],
        locks + {WantedBy(p, phase)});
    }
  }

  lemma MoveIsWritten(s: State, p: ProcessId, id: ProjectId, c: Context, held: seq<Resource>, locks: set<Grant>)
    requires Enabled(At(s, p, MoveRead(id, c, s.registry, held, []), locks), Advance(p))
    requires forall g | g in locks :: g.process == p
    ensures Apply(At(s, p, MoveRead(id, c, s.registry, held, []), locks), Advance(p))
         == At(s, p, Idle, {}).(registry := s.registry[c.id := Claim(c.root, c.storage)])
  {
    AllReleased(s, p, locks);
  }
}
