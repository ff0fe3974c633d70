/**
 Any number of processes sharing one registry (project.rs, storage_root_setting.rs). A process
 that works on a repository holds a shared lock on its project's location and a lock on the
 repository; whoever changes a registry entry holds that location exclusively and the registry
 lock. Processes may stop anywhere, which releases their locks, and the user may put markers
 and repositories anywhere at any time.
 */
module ProjectClaims {
  import opened Outcomes
  import opened ProjectRegistry

  type ProcessId = nat

  datatype MarkerFile = Marker(id: ProjectId) | UnsafeMarker

  datatype Resource = Location(id: ProjectId) | RegistryFile | Repository(storage: StorageRoot, id: ProjectId)

  datatype Grant = Grant(process: ProcessId, resource: Resource, exclusive: bool)

  datatype Context = Context(id: ProjectId, root: Root, storage: StorageRoot)

  /** How far a process is in one operation; each phase ends where the next effect happens. */
  datatype Phase =
    | Idle
    // acquire_project_repository_lock and its shared variant
    | Loaded(context: Context, exclusive: bool)
    | Located(context: Context, exclusive: bool)
    | RepositoryLocked(context: Context, exclusive: bool)
    | Holding(context: Context, exclusive: bool)
    // load_project's refresh and confirm_project_location
    | Claiming(root: Root, id: ProjectId, refresh: bool)
    | ClaimLocked(root: Root, id: ProjectId, refresh: bool)
    | ClaimReloaded(locked: ProjectId, context: Context)
    | ClaimRegistry(locked: ProjectId, context: Context)
    | ClaimRead(locked: ProjectId, context: Context, snapshot: Registry)
    // init_project_internal
    | Initializing(root: Root, existing: Option<ProjectId>, target: ProjectId, forced: bool, storage: StorageRoot,
                   held: seq<ProjectId>, remaining: seq<ProjectId>)
    | InitRegistry(root: Root, existing: Option<ProjectId>, target: ProjectId, forced: bool, storage: StorageRoot,
                   held: seq<ProjectId>)
    | InitRead(context: Context, forced: bool, held: seq<ProjectId>, snapshot: Registry)
    | InitMarker(root: Root, target: ProjectId, held: seq<ProjectId>)
    // set_project_storage_root
    | Moving(root: Root, id: ProjectId, storage: StorageRoot)
    | MoveLocked(root: Root, id: ProjectId, storage: StorageRoot)
    | MoveReloaded(locked: ProjectId, context: Context)
    | MoveRegistry(locked: ProjectId, context: Context)
    | MoveRead(locked: ProjectId, context: Context, snapshot: Registry, heldRepositories: seq<Resource>,
               remainingRepositories: seq<Resource>)

  datatype State = State(
    registry: Registry,
    markers: map<Root, MarkerFile>,
    repositories: set<(StorageRoot, ProjectId)>,
    locks: set<Grant>,
    phases: map<ProcessId, Phase>)

  datatype Event =
    | Start(p: ProcessId, phase: Phase)
    | Advance(p: ProcessId)
    | Stop(p: ProcessId)
    | PlaceMarker(root: Root, marker: MarkerFile)
    | RemoveMarker(root: Root)
    | PlaceRepository(storage: StorageRoot, id: ProjectId)
    | RemoveRepository(storage: StorageRoot, id: ProjectId)

  datatype LocationStatus = Current | CopiedSuspected | Moved

  function StatusOf(s: State, root: Root, id: ProjectId, entry: Claim): LocationStatus {
    if entry.root == root then Current
    else if entry.root in s.markers && (s.markers[entry.root].UnsafeMarker? || s.markers[entry.root].id == id)
    then CopiedSuspected
    else Moved
  }

  // ---------------------------------------------------------------- locks

  function GrantsOf(locks: set<Grant>, p: ProcessId): set<Grant> {
    set g | g in locks && g.process == p
  }

  predicate Grantable(locks: set<Grant>, r: Resource, exclusive: bool) {
    forall g | g in locks && g.resource == r :: !exclusive && !g.exclusive
  }

  /** The order in which every operation takes its locks. */
  predicate Precedes(a: Resource, b: Resource) {
    match a
    case Location(i) => !b.Location? || i < b.id
    case RegistryFile => b.Repository?
    case Repository(t, i) => b.Repository? && (t < b.storage || (t == b.storage && i < b.id))
  }

  /** The location locks of an initialization: its new id and the id it replaces, in order. */
  function ClaimIds(target: ProjectId, existing: Option<ProjectId>): seq<ProjectId> {
    if existing.None? || existing.value == target then [target]
    else if target < existing.value then [target, existing.value]
    else [existing.value, target]
  }

  function RepositoryOrder(former: Option<Resource>, next: Resource): seq<Resource> {
    if former.None? || former.value == next then [next]
    else if Precedes(former.value, next) then [former.value, next]
    else [next, former.value]
  }

  predicate Ascending(rs: seq<Resource>) {
    forall i, j | 0 <= i < j < |rs| :: Precedes(rs[i], rs[j])
  }

  function Exclusively(p: ProcessId, rs: seq<Resource>): set<Grant> {
    set r | r in rs :: Grant(p, r, true)
  }

  function Locations(p: ProcessId, ids: seq<ProjectId>): set<Grant> {
    set id | id in ids :: Grant(p, Location(id), true)
  }

  function RegistryGrant(p: ProcessId): set<Grant> {
    {Grant(p, RegistryFile, true)}
  }

  /** The locks a process holds in each phase. */
  function Required(p: ProcessId, phase: Phase): set<Grant> {
    match phase
    case Idle => {}
    case Loaded(_, _) => {}
    case Located(c, _) => {Grant(p, Location(c.id), false)}
    case RepositoryLocked(c, x) => {Grant(p, Location(c.id), false), Grant(p, Repository(c.storage, c.id), x)}
    case Holding(c, x) => {Grant(p, Location(c.id), false), Grant(p, Repository(c.storage, c.id), x)}
    case Claiming(_, _, _) => {}
    case ClaimLocked(_, id, _) => Locations(p, [id])
    case ClaimReloaded(locked, _) => Locations(p, [locked])
    case ClaimRegistry(locked, _) => Locations(p, [locked]) + RegistryGrant(p)
    case ClaimRead(locked, _, _) => Locations(p, [locked]) + RegistryGrant(p)
    case Initializing(_, _, _, _, _, held, _) => Locations(p, held)
    case InitRegistry(_, _, _, _, _, held) => Locations(p, held) + RegistryGrant(p)
    case InitRead(_, _, held, _) => Locations(p, held) + RegistryGrant(p)
    case InitMarker(_, _, held) => Locations(p, held) + RegistryGrant(p)
    case Moving(_, _, _) => {}
    case MoveLocked(_, id, _) => Locations(p, [id])
    case MoveReloaded(locked, _) => Locations(p, [locked])
    case MoveRegistry(locked, _) => Locations(p, [locked]) + RegistryGrant(p)
    case MoveRead(locked, _, _, held, _) => Locations(p, [locked]) + RegistryGrant(p) + Exclusively(p, held)
  }

  /** The lock a process must get next, if its next step takes one. */
  function Wanted(phase: Phase): Option<Grant> {
    match phase
    case Loaded(c, _) => Some(Grant(0, Location(c.id), false))
    case Located(c, x) => Some(Grant(0, Repository(c.storage, c.id), x))
    case Claiming(_, id, _) => Some(Grant(0, Location(id), true))
    case ClaimReloaded(_, _) => Some(Grant(0, RegistryFile, true))
    case Initializing(_, _, _, _, _, _, remaining) =>
      if remaining == [] then Some(Grant(0, RegistryFile, true)) else Some(Grant(0, Location(remaining[0]), true))
    case Moving(_, id, _) => Some(Grant(0, Location(id), true))
    case MoveReloaded(_, _) => Some(Grant(0, RegistryFile, true))
    case MoveRead(_, _, _, _, remaining) => if remaining == [] then None else Some(Grant(0, remaining[0], true))
    case _ => None
  }

  /** The phase entered once the wanted lock is granted. */
  function AfterGrant(phase: Phase): Phase {
    match phase
    case Loaded(c, x) => Located(c, x)
    case Located(c, x) => RepositoryLocked(c, x)
    case Claiming(root, id, refresh) => ClaimLocked(root, id, refresh)
    case ClaimReloaded(locked, c) => ClaimRegistry(locked, c)
    case Initializing(root, existing, target, forced, storage, held, remaining) =>
      if remaining == [] then InitRegistry(root, existing, target, forced, storage, held)
      else Initializing(root, existing, target, forced, storage, held + [remaining[0]], remaining[1..])
    case Moving(root, id, storage) => MoveLocked(root, id, storage)
    case MoveReloaded(locked, c) => MoveRegistry(locked, c)
    case MoveRead(locked, c, snapshot, held, remaining) =>
      if remaining == [] then phase else MoveRead(locked, c, snapshot, held + [remaining[0]], remaining[1..])
    case _ => phase
  }

  // ---------------------------------------------------------------- steps without locks

  function Stopped(s: State, p: ProcessId): State {
    s.(locks := s.locks - GrantsOf(s.locks, p), phases := s.phases[p := Idle])
  }

  function Enter(s: State, p: ProcessId, phase: Phase): State {
    s.(phases := s.phases[p := phase])
  }

  predicate MarkerNames(s: State, root: Root, id: ProjectId) {
    root in s.markers && s.markers[root] == Marker(id)
  }

  function MarkerAt(s: State, root: Root): Option<MarkerFile> {
    if root in s.markers then Some(s.markers[root]) else None
  }

  /** validate_current_repository_binding */
  predicate BindingValid(s: State, c: Context, exclusive: bool) {
    && c.id in s.registry && s.registry[c.id].storage == c.storage
    && (exclusive ==> s.registry[c.id].root == c.root)
    && MarkerNames(s, c.root, c.id) && (c.storage, c.id) in s.repositories
  }

  /** The second load of a claim, under the location lock of the first load's id. */
  function Reload(s: State, p: ProcessId, root: Root, id: ProjectId, refresh: bool): State {
    if root !in s.markers || s.markers[root].UnsafeMarker? then Stopped(s, p)
    else
      var found := s.markers[root].id;
      if found !in s.registry || (s.registry[found].storage, found) !in s.repositories then Stopped(s, p)
      else
        var status := StatusOf(s, root, found, s.registry[found]);
        if status.Current? || (refresh && !status.Moved?) then Stopped(s, p)
        else Enter(s, p, ClaimReloaded(id, Context(found, root, s.registry[found].storage)))
  }

  function ReadForInit(s: State, p: ProcessId, phase: Phase): State
    requires phase.InitRegistry?
  {
    var InitRegistry(root, existing, target, forced, storage, held) := phase;
    var marker := MarkerAt(s, root);
    var entry := if target in s.registry then Some(s.registry[target]) else None;
    if marker != (if existing.Some? then Some(Marker(existing.value)) else None) then Stopped(s, p)
    else if forced && (existing.None? || (entry.Some? && entry.value.root != root)) then Stopped(s, p)
    else if !forced && entry.Some? && StatusOf(s, root, target, entry.value).CopiedSuspected? then Stopped(s, p)
    else
      var chosen := if entry.Some? then entry.value.storage else storage;
      var named := if !forced && existing.None? then s.markers[root := Marker(target)] else s.markers;
      Enter(s, p, InitRead(Context(target, root, chosen), forced, held, s.registry)).(markers := named)
  }

  function ReadForMove(s: State, p: ProcessId, locked: ProjectId, c: Context): State {
    if c.id !in s.registry || StatusOf(s, c.root, c.id, s.registry[c.id]).CopiedSuspected? then Stopped(s, p)
    else if (c.storage, c.id) !in s.repositories then Stopped(s, p)
    else
      var storage := s.registry[c.id].storage;
      var former := if (storage, c.id) in s.repositories then Some(Repository(storage, c.id)) else None;
      Enter(s, p, MoveRead(locked, c, s.registry, [], RepositoryOrder(former, Repository(c.storage, c.id))))
  }

  /** Writes the registry as read, with the entry of the context replaced. */
  function Write(s: State, snapshot: Registry, c: Context): State {
    s.(registry := snapshot[c.id := Claim(c.root, c.storage)])
  }

  function Proceed(s: State, p: ProcessId): State
    requires p in s.phases
  {
    var phase := s.phases[p];
    match phase
    case RepositoryLocked(c, x) => if BindingValid(s, c, x) then Enter(s, p, Holding(c, x)) else Stopped(s, p)
    case ClaimLocked(root, id, refresh) => Reload(s, p, root, id, refresh)
    case ClaimRegistry(locked, c) => Enter(s, p, ClaimRead(locked, c, s.registry))
    case ClaimRead(_, c, snapshot) => Stopped(Write(s, snapshot, c), p)
    case InitRegistry(_, _, _, _, _, _) => ReadForInit(s, p, phase)
    case InitRead(c, forced, held, snapshot) =>
      var written := Write(s, snapshot, c).(repositories := s.repositories + {(c.storage, c.id)});
      if forced then Enter(written, p, InitMarker(c.root, c.id, held)) else Stopped(written, p)
    case InitMarker(root, target, _) => Stopped(s.(markers := s.markers[root := Marker(target)]), p)
    case MoveLocked(root, id, storage) =>
      if root in s.markers && s.markers[root].Marker? then
        Enter(s, p, MoveReloaded(id, Context(s.markers[root].id, root, storage)))
      else Stopped(s, p)
    case MoveRegistry(locked, c) => ReadForMove(s, p, locked, c)
    case MoveRead(_, c, snapshot, _, _) => Stopped(Write(s, snapshot, c), p)
    case _ => Stopped(s, p)
  }

  /** First phases; the ids and contexts in them may be arbitrarily stale. */
  predicate IsStart(phase: Phase) {
    match phase
    case Loaded(_, _) => true
    case Claiming(_, _, _) => true
    case Initializing(_, existing, target, _, _, held, remaining) =>
      held == [] && remaining == ClaimIds(target, existing)
    case Moving(_, _, _) => true
    case _ => false
  }

  predicate Enabled(s: State, e: Event) {
    match e
    case Start(p, phase) => (p !in s.phases || s.phases[p].Idle?) && IsStart(phase)
    case Advance(p) =>
      p in s.phases && !s.phases[p].Idle?
      && (Wanted(s.phases[p]).Some? ==>
        Grantable(s.locks, Wanted(s.phases[p]).value.resource, Wanted(s.phases[p]).value.exclusive))
    case Stop(p) => p in s.phases
    case _ => true
  }

  function Apply(s: State, e: Event): State
    requires Enabled(s, e)
  {
    match e
    case Start(p, phase) => Enter(s, p, phase)
    case Advance(p) =>
      var wanted := Wanted(s.phases[p]);
      if wanted.Some? then Enter(s, p, AfterGrant(s.phases[p])).(locks := s.locks + {wanted.value.(process := p)})
      else Proceed(s, p)
    case Stop(p) => Stopped(s, p)
    case PlaceMarker(root, marker) => s.(markers := s.markers[root := marker])
    case RemoveMarker(root) => s.(markers := s.markers - {root})
    case PlaceRepository(storage, id) => s.(repositories := s.repositories + {(storage, id)})
    case RemoveRepository(storage, id) => s.(repositories := s.repositories - {(storage, id)})
  }

  /** A second marker load finds the id whose location lock was taken after the first. */
  predicate Steady(s: State, e: Event) {
    match e
    case Advance(p) =>
      p in s.phases ==>
        (match s.phases[p]
         case ClaimLocked(root, id, _) =>
           MarkerAt(s, root).None? || s.markers[root].UnsafeMarker? || s.markers[root].id == id
         case MoveLocked(root, id, _) =>
           MarkerAt(s, root).None? || s.markers[root].UnsafeMarker? || s.markers[root].id == id
         case _ => true)
    case _ => true
  }

  // ---------------------------------------------------------------- invariant

  ghost predicate Compatible(locks: set<Grant>) {
    forall g, h | g in locks && h in locks && g.resource == h.resource && g != h :: !g.exclusive && !h.exclusive
  }

  function PhaseOf(s: State, p: ProcessId): Phase {
    if p in s.phases then s.phases[p] else Idle
  }

  ghost predicate LocksMatch(s: State) {
    forall p: ProcessId :: GrantsOf(s.locks, p) == Required(p, PhaseOf(s, p))
  }

  predicate StorageIs(registry: Registry, c: Context) {
    c.id in registry && registry[c.id].storage == c.storage
  }

  /** What a process may rely on about the registry in each phase. */
  ghost predicate Knows(registry: Registry, phase: Phase) {
    match phase
    case Holding(c, x) => StorageIs(registry, c) && (x ==> registry[c.id].root == c.root)
    case ClaimReloaded(locked, c) => locked == c.id && StorageIs(registry, c)
    case ClaimRegistry(locked, c) => locked == c.id && StorageIs(registry, c)
    case ClaimRead(locked, c, snapshot) => locked == c.id && StorageIs(registry, c) && snapshot == registry
    case Initializing(_, existing, target, _, _, held, remaining) => held + remaining == ClaimIds(target, existing)
    case InitRegistry(_, existing, target, _, _, held) => held == ClaimIds(target, existing)
    case InitRead(c, _, held, snapshot) =>
      c.id in held && snapshot == registry && (c.id in registry ==> registry[c.id].storage == c.storage)
    case MoveReloaded(locked, c) => locked == c.id
    case MoveRegistry(locked, c) => locked == c.id
    case MoveRead(locked, c, snapshot, held, remaining) =>
      locked == c.id && snapshot == registry
      && Ascending(held + remaining) && forall r | r in held + remaining :: r.Repository?
    case _ => true
  }

  ghost predicate AllKnow(s: State) {
    forall p: ProcessId :: Knows(s.registry, PhaseOf(s, p))
  }

  ghost predicate Inv(s: State) {
    Compatible(s.locks) && LocksMatch(s) && AllKnow(s)
  }

  ghost predicate Initial(s: State) {
    s.locks == {} && forall p | p in s.phases :: s.phases[p].Idle?
  }

  lemma InitialInv(s: State)
    requires Initial(s)
    ensures Inv(s)
  {
  }

  /** Everything but what `p` itself relies on. */
  ghost predicate InvBut(s: State, p: ProcessId) {
    Compatible(s.locks) && LocksMatch(s) && forall q: ProcessId | q != p :: Knows(s.registry, PhaseOf(s, q))
  }

  lemma StopKeeps(s: State, p: ProcessId)
    requires InvBut(s, p)
    ensures Inv(Stopped(s, p))
  {
    var after := Stopped(s, p);
    forall q: ProcessId
      ensures GrantsOf(after.locks, q) == Required(q, PhaseOf(after, q)) && Knows(after.registry, PhaseOf(after, q))
    {
      assert GrantsOf(s.locks, q) == Required(q, PhaseOf(s, q));
      assert q != p ==> Knows(s.registry, PhaseOf(s, q));
      if q == p {
        assert GrantsOf(after.locks, q) == {};
      } else {
        assert GrantsOf(after.locks, q) == GrantsOf(s.locks, q);
      }
    }
  }

  /** A phase that needs the same locks and knows no more than the registry says. */
  lemma EnterKeeps(s: State, p: ProcessId, phase: Phase)
    requires InvBut(s, p) && Required(p, phase) == Required(p, PhaseOf(s, p)) && Knows(s.registry, phase)
    ensures Inv(Enter(s, p, phase))
  {
    hide Required, Knows;
    var after := Enter(s, p, phase);
    forall q: ProcessId
      ensures GrantsOf(after.locks, q) == Required(q, PhaseOf(after, q)) && Knows(after.registry, PhaseOf(after, q))
    {
      assert GrantsOf(s.locks, q) == Required(q, PhaseOf(s, q));
      assert q != p ==> Knows(s.registry, PhaseOf(s, q));
      assert q != p ==> PhaseOf(after, q) == PhaseOf(s, q);
    }
  }

  /** Markers and repositories are not the locks' business. */
  lemma ElsewhereKeeps(s: State, after: State)
    requires Inv(s) && after.registry == s.registry && after.locks == s.locks && after.phases == s.phases
    ensures Inv(after)
  {
    hide Required, Knows;
    forall q: ProcessId
      ensures GrantsOf(after.locks, q) == Required(q, PhaseOf(after, q)) && Knows(after.registry, PhaseOf(after, q))
    {
      assert GrantsOf(s.locks, q) == Required(q, PhaseOf(s, q));
      assert Knows(s.registry, PhaseOf(s, q));
    }
  }

  function WantedBy(p: ProcessId, phase: Phase): Grant
    requires Wanted(phase).Some?
  {
    Wanted(phase).value.(process := p)
  }

  lemma GrantFitsPhase(p: ProcessId, registry: Registry, phase: Phase)
    requires Wanted(phase).Some? && Knows(registry, phase)
    ensures Required(p, AfterGrant(phase)) == Required(p, phase) + {WantedBy(p, phase)}
    ensures Knows(registry, AfterGrant(phase))
  {
    match phase
    case Initializing(root, existing, target, forced, storage, held, remaining) =>
      if remaining != [] {
        assert (held + [remaining[0]]) + remaining[1..] == held + remaining;
      } else {
        assert held + remaining == held;
      }
    case MoveRead(locked, c, snapshot, held, remaining) =>
      assert (held + [remaining[0]]) + remaining[1..] == held + remaining;
    case _ =>
  }

  lemma GrantKeeps(s: State, p: ProcessId)
    requires Inv(s) && Enabled(s, Advance(p)) && Wanted(s.phases[p]).Some?
    ensures Inv(Apply(s, Advance(p)))
  {
    hide Required, Knows, Wanted, AfterGrant;
    var phase := s.phases[p];
    var grant := WantedBy(p, phase);
    var after := Apply(s, Advance(p));
    assert PhaseOf(s, p) == phase;
    GrantFitsPhase(p, s.registry, phase);
    forall q: ProcessId
      ensures GrantsOf(after.locks, q) == Required(q, PhaseOf(after, q)) && Knows(after.registry, PhaseOf(after, q))
    {
      assert GrantsOf(s.locks, q) == Required(q, PhaseOf(s, q));
      assert Knows(s.registry, PhaseOf(s, q));
      if q == p {
        assert GrantsOf(after.locks, q) == GrantsOf(s.locks, q) + {grant};
      } else {
        assert PhaseOf(after, q) == PhaseOf(s, q);
        assert GrantsOf(after.locks, q) == GrantsOf(s.locks, q);
      }
    }
  }

  // ---------------------------------------------------------------- registry writes

  /** The lock every writer of an entry holds. */
  ghost predicate Owns(s: State, p: ProcessId, r: Resource) {
    Grant(p, r, true) in s.locks
  }

  /** Whoever knows something of an entry holds its location, so nobody else may write it. */
  lemma WriteMissesOthers(s: State, p: ProcessId, q: ProcessId, c: Context, registry: Registry)
    requires Inv(s) && p != q && Owns(s, p, Location(c.id)) && Owns(s, p, RegistryFile)
    requires registry == s.registry[c.id := Claim(c.root, c.storage)]
    ensures Knows(registry, PhaseOf(s, q))
  {
    var phase := PhaseOf(s, q);
    var mine, file := Grant(p, Location(c.id), true), Grant(p, RegistryFile, true);
    assert GrantsOf(s.locks, q) == Required(q, phase);
    assert Knows(s.registry, phase);
    assert forall g | g in Required(q, phase) ::
      g in s.locks && g.resource != RegistryFile && g.resource != Location(c.id);
    assert phase.ClaimRegistry? || phase.ClaimRead? || phase.InitRead? || phase.MoveRead? ==>
      Grant(q, RegistryFile, true) in Required(q, phase);
    assert phase.Holding? ==> Grant(q, Location(phase.context.id), false) in Required(q, phase);
    assert phase.ClaimReloaded? ==>
      phase.locked in [phase.locked] && Grant(q, Location(phase.locked), true) in Required(q, phase);
  }

  /** The context a process is about to write into the registry. */
  function Writes(phase: Phase): Option<Context> {
    match phase
    case ClaimRead(_, c, _) => Some(c)
    case InitRead(c, _, _, _) => Some(c)
    case MoveRead(_, c, _, _, remaining) => if remaining == [] then Some(c) else None
    case _ => None
  }

  lemma WriterOwns(s: State, p: ProcessId, c: Context)
    requires Inv(s) && Writes(PhaseOf(s, p)) == Some(c)
    ensures Owns(s, p, Location(c.id)) && Owns(s, p, RegistryFile)
  {
    var phase := PhaseOf(s, p);
    assert Knows(s.registry, phase);
    assert GrantsOf(s.locks, p) == Required(p, phase);
    assert Grant(p, RegistryFile, true) in Required(p, phase);
    match phase
    case ClaimRead(locked, _, _) =>
      assert locked in [locked] && Grant(p, Location(c.id), true) in Locations(p, [locked]);
    case InitRead(_, _, held, _) =>
      assert Grant(p, Location(c.id), true) in Locations(p, held);
    case MoveRead(locked, _, _, _, _) =>
      assert locked in [locked] && Grant(p, Location(c.id), true) in Locations(p, [locked]);
  }

  lemma WriteKeepsOthers(s: State, p: ProcessId, c: Context)
    requires Inv(s) && Writes(PhaseOf(s, p)) == Some(c)
    ensures InvBut(Write(s, s.registry, c), p)
  {
    hide Required, Knows, Writes;
    var after := Write(s, s.registry, c);
    WriterOwns(s, p, c);
    forall q: ProcessId
      ensures GrantsOf(after.locks, q) == Required(q, PhaseOf(after, q))
      ensures q != p ==> Knows(after.registry, PhaseOf(after, q))
    {
      assert GrantsOf(s.locks, q) == Required(q, PhaseOf(s, q));
      if q != p {
        WriteMissesOthers(s, p, q, c, after.registry);
      }
    }
  }

  lemma OrdersAscend(target: ProjectId, existing: Option<ProjectId>, former: Option<Resource>, next: Resource)
    requires next.Repository? && (former.Some? ==> former.value.Repository?)
    ensures Ascending(RepositoryOrder(former, next)) && forall r | r in RepositoryOrder(former, next) :: r.Repository?
    ensures target in ClaimIds(target, existing)
  {
  }

  lemma ReadForInitKeeps(s: State, p: ProcessId)
    requires Inv(s) && PhaseOf(s, p).InitRegistry?
    ensures Inv(ReadForInit(s, p, PhaseOf(s, p)))
    ensures ReadForInit(s, p, PhaseOf(s, p)).registry == s.registry
  {
    var phase := PhaseOf(s, p);
    var after := ReadForInit(s, p, phase);
    assert Knows(s.registry, phase);
    OrdersAscend(phase.target, phase.existing, None, Repository(0, 0));
    StopKeeps(s, p);
    if after != Stopped(s, p) {
      EnterKeeps(s, p, after.phases[p]);
      ElsewhereKeeps(Enter(s, p, after.phases[p]), after);
    }
  }

  lemma ReadForMoveKeeps(s: State, p: ProcessId)
    requires Inv(s) && PhaseOf(s, p).MoveRegistry?
    ensures Inv(ReadForMove(s, p, PhaseOf(s, p).locked, PhaseOf(s, p).context))
    ensures ReadForMove(s, p, PhaseOf(s, p).locked, PhaseOf(s, p).context).registry == s.registry
  {
    var MoveRegistry(locked, c) := PhaseOf(s, p);
    var after := ReadForMove(s, p, locked, c);
    assert Knows(s.registry, PhaseOf(s, p));
    StopKeeps(s, p);
    if after != Stopped(s, p) {
      var storage := s.registry[c.id].storage;
      var former := if (storage, c.id) in s.repositories then Some(Repository(storage, c.id)) else None;
      var order := RepositoryOrder(former, Repository(c.storage, c.id));
      OrdersAscend(0, None, former, Repository(c.storage, c.id));
      assert [] + order == order;
      EnterKeeps(s, p, MoveRead(locked, c, s.registry, [], order));
    }
  }

  lemma WritingKeeps(s: State, p: ProcessId)
    requires Inv(s) && p in s.phases && Writes(PhaseOf(s, p)).Some?
    ensures Inv(Proceed(s, p))
    ensures Proceed(s, p).registry == Write(s, s.registry, Writes(PhaseOf(s, p)).value).registry
  {
    var phase := PhaseOf(s, p);
    var c := Writes(phase).value;
    assert Knows(s.registry, phase);
    WriteKeepsOthers(s, p, c);
    var written := Write(s, s.registry, c);
    StopKeeps(written, p);
    if phase.InitRead? {
      var made := written.(repositories := s.repositories + {(c.storage, c.id)});
      if phase.forced {
        EnterKeeps(written, p, InitMarker(c.root, c.id, phase.held));
        ElsewhereKeeps(Enter(written, p, InitMarker(c.root, c.id, phase.held)),
          Enter(made, p, InitMarker(c.root, c.id, phase.held)));
      } else {
        ElsewhereKeeps(Stopped(written, p), Stopped(made, p));
      }
    }
  }

  lemma ProceedKeeps(s: State, p: ProcessId)
    requires Inv(s) && p in s.phases && Wanted(PhaseOf(s, p)).None? && Steady(s, Advance(p))
    ensures Inv(Proceed(s, p))
    ensures Writes(PhaseOf(s, p)).None? ==> Proceed(s, p).registry == s.registry
  {
    var phase := PhaseOf(s, p);
    assert Knows(s.registry, phase);
    StopKeeps(s, p);
    if Writes(phase).Some? {
      WritingKeeps(s, p);
    } else {
      match phase
      case RepositoryLocked(c, x) =>
        if BindingValid(s, c, x) {
          EnterKeeps(s, p, Holding(c, x));
        }
      case ClaimLocked(root, id, refresh) =>
        if Proceed(s, p) != Stopped(s, p) {
          EnterKeeps(s, p, Proceed(s, p).phases[p]);
        }
      case ClaimRegistry(locked, c) =>
        EnterKeeps(s, p, ClaimRead(locked, c, s.registry));
      case InitRegistry(_, _, _, _, _, _) =>
        ReadForInitKeeps(s, p);
      case InitMarker(root, target, held) =>
        ElsewhereKeeps(Stopped(s, p), Proceed(s, p));
      case MoveLocked(root, id, storage) =>
        if Proceed(s, p) != Stopped(s, p) {
          EnterKeeps(s, p, Proceed(s, p).phases[p]);
        }
      case MoveRegistry(locked, c) =>
        ReadForMoveKeeps(s, p);
      case _ =>
    }
  }

  // ---------------------------------------------------------------- main results

  /** Every step of every process keeps the invariant, as long as second loads find the locked id. */
  lemma StepKeepsInvariant(s: State, e: Event)
    requires Inv(s) && Enabled(s, e) && Steady(s, e)
    ensures Inv(Apply(s, e))
  {
    hide Required, Knows, Proceed;
    match e
    case Start(p, phase) =>
      StartKeeps(s, p, phase);
    case Advance(p) =>
      if Wanted(s.phases[p]).Some? {
        GrantKeeps(s, p);
      } else {
        ProceedKeeps(s, p);
      }
    case Stop(p) =>
      StopKeeps(s, p);
    case _ =>
      ElsewhereKeeps(s, Apply(s, e));
  }

  lemma StartKeeps(s: State, p: ProcessId, phase: Phase)
    requires Inv(s) && PhaseOf(s, p).Idle? && IsStart(phase)
    ensures Inv(Enter(s, p, phase))
  {
    if phase.Initializing? {
      assert phase.held + phase.remaining == phase.remaining;
    }
    EnterKeeps(s, p, phase);
  }

  /**
     No registry update is lost: the only step that changes the registry replaces one entry of the
     registry as it is now, and only moving the storage changes where a registered project is stored.
   */
  lemma NoLostUpdate(s: State, e: Event)
    requires Inv(s) && Enabled(s, e) && Steady(s, e)
    ensures Apply(s, e).registry == s.registry
         || (e.Advance? && Writes(PhaseOf(s, e.p)).Some?
             && var c := Writes(PhaseOf(s, e.p)).value;
                && Apply(s, e).registry == s.registry[c.id := Claim(c.root, c.storage)]
                && (PhaseOf(s, e.p).MoveRead? || c.id !in s.registry || s.registry[c.id].storage == c.storage))
  {
    hide Required, Proceed;
    if e.Advance? && Wanted(s.phases[e.p]).None? {
      assert Knows(s.registry, PhaseOf(s, e.p));
      ProceedKeeps(s, e.p);
      if Writes(PhaseOf(s, e.p)).Some? {
        WritingKeeps(s, e.p);
      }
    }
  }

  /** While a process holds a repository, its registry entry stays as it was. */
  lemma HolderPinsEntry(s: State, e: Event, p: ProcessId)
    requires Inv(s) && Enabled(s, e) && Steady(s, e)
    requires PhaseOf(s, p).Holding? && PhaseOf(Apply(s, e), p) == PhaseOf(s, p)
    ensures var id := PhaseOf(s, p).context.id;
      id in s.registry && id in Apply(s, e).registry && Apply(s, e).registry[id] == s.registry[id]
  {
    hide Proceed;
    var id := PhaseOf(s, p).context.id;
    assert Knows(s.registry, PhaseOf(s, p));
    NoLostUpdate(s, e);
    if e.Advance? && Writes(PhaseOf(s, e.p)).Some? {
      var c := Writes(PhaseOf(s, e.p)).value;
      WriterOwns(s, e.p, c);
      assert GrantsOf(s.locks, p) == Required(p, PhaseOf(s, p));
      assert Grant(p, Location(id), false) in GrantsOf(s.locks, p);
      assert Grant(p, Location(id), false) != Grant(e.p, Location(c.id), true);
      assert c.id != id;
    }
  }

  /** What every exclusive holder may rely on. */
  ghost predicate ClaimsHold(s: State) {
    forall p: ProcessId | PhaseOf(s, p).Holding? && PhaseOf(s, p).exclusive :: ClaimHolds(s, PhaseOf(s, p).context)
  }

  predicate ClaimHolds(s: State, c: Context) {
    c.id in s.registry && s.registry[c.id] == Claim(c.root, c.storage)
  }

  /** One process at most works on a project's history exclusively, wherever its copies are. */
  ghost predicate OneHolderPerProject(s: State) {
    forall p: ProcessId, q: ProcessId | PhaseOf(s, p).Holding? && PhaseOf(s, q).Holding? && PhaseOf(s, p).exclusive
        && PhaseOf(s, p).context.id == PhaseOf(s, q).context.id ::
      p == q
  }

  lemma InvariantMeans(s: State)
    requires Inv(s)
    ensures ClaimsHold(s) && OneHolderPerProject(s)
  {
    forall p: ProcessId
      ensures Knows(s.registry, PhaseOf(s, p)) && GrantsOf(s.locks, p) == Required(p, PhaseOf(s, p))
    {
    }
    forall p: ProcessId, q: ProcessId | PhaseOf(s, p).Holding? && PhaseOf(s, q).Holding? && PhaseOf(s, p).exclusive
        && PhaseOf(s, p).context.id == PhaseOf(s, q).context.id
      ensures p == q
    {
      var c, d := PhaseOf(s, p).context, PhaseOf(s, q).context;
      assert Grant(p, Repository(c.storage, c.id), true) in GrantsOf(s.locks, p);
      assert Grant(q, Repository(d.storage, d.id), PhaseOf(s, q).exclusive) in GrantsOf(s.locks, q);
    }
  }

  ghost predicate RunEnabled(s: State, events: seq<Event>)
    decreases |events|
  {
    events == [] || (Enabled(s, events[0]) && RunEnabled(Apply(s, events[0]), events[1..]))
  }

  ghost predicate RunSteady(s: State, events: seq<Event>)
    requires RunEnabled(s, events)
    decreases |events|
  {
    events == [] || (Steady(s, events[0]) && RunSteady(Apply(s, events[0]), events[1..]))
  }

  ghost function Final(s: State, events: seq<Event>): State
    requires RunEnabled(s, events)
    decreases |events|
  {
    if events == [] then s else Final(Apply(s, events[0]), events[1..])
  }

  lemma {:induction false} RunKeepsInvariant(s: State, events: seq<Event>)
    requires Inv(s) && RunEnabled(s, events) && RunSteady(s, events)
    ensures Inv(Final(s, events))
    decreases |events|
  {
    if events != [] {
      StepKeepsInvariant(s, events[0]);
      RunKeepsInvariant(Apply(s, events[0]), events[1..]);
    }
  }

  /** `p` itself begins, continues or stops. */
  predicate IsStepOf(e: Event, p: ProcessId) {
    (e.Start? || e.Advance? || e.Stop?) && e.p == p
  }

  /** A holder lets go only by a step of its own; until then, whatever the others do, its entry stays. */
  lemma {:induction false} HolderPinsEntryThroughout(s: State, events: seq<Event>, p: ProcessId)
    requires Inv(s) && RunEnabled(s, events) && RunSteady(s, events)
    requires PhaseOf(s, p).Holding? && forall e | e in events :: !IsStepOf(e, p)
    ensures var id, last := PhaseOf(s, p).context.id, Final(s, events);
      PhaseOf(last, p) == PhaseOf(s, p) && id in s.registry && id in last.registry
        && last.registry[id] == s.registry[id]
    decreases |events|
  {
    hide Steady, Required, Knows;
    if events == [] {
      HeldIsRegistered(s, p);
    } else {
      var e, next := events[0], Apply(s, events[0]);
      assert !IsStepOf(e, p);
      OthersLeavePhase(s, e, p);
      StepKeepsInvariant(s, e);
      HolderPinsEntry(s, e, p);
      assert forall x | x in events[1..] :: x in events;
      HolderPinsEntryThroughout(next, events[1..], p);
    }
  }

  lemma HeldIsRegistered(s: State, p: ProcessId)
    requires Inv(s) && PhaseOf(s, p).Holding?
    ensures PhaseOf(s, p).context.id in s.registry
  {
    assert Knows(s.registry, PhaseOf(s, p));
  }

  lemma OthersLeavePhase(s: State, e: Event, p: ProcessId)
    requires Enabled(s, e) && !IsStepOf(e, p)
    ensures PhaseOf(Apply(s, e), p) == PhaseOf(s, p)
  {
  }

  /** Over every run of any number of processes. */
  lemma ClaimsHoldInEveryRun(s: State, events: seq<Event>)
    requires Initial(s) && RunEnabled(s, events) && RunSteady(s, events)
    ensures ClaimsHold(Final(s, events)) && OneHolderPerProject(Final(s, events))
  {
    InitialInv(s);
    RunKeepsInvariant(s, events);
    InvariantMeans(Final(s, events));
  }

  // ---------------------------------------------------------------- deadlock

  lemma PrecedesIsOrder(a: Resource, b: Resource, c: Resource)
    ensures !Precedes(a, a)
    ensures Precedes(a, b) && Precedes(b, c) ==> Precedes(a, c)
  {
  }

  lemma LaterInOrder(rs: seq<Resource>, held: seq<Resource>, remaining: seq<Resource>, r: Resource)
    requires Ascending(rs) && rs == held + remaining && remaining != [] && r in held
    ensures Precedes(r, remaining[0])
  {
    var i :| 0 <= i < |held| && held[i] == r;
    assert rs[i] == r && rs[|held|] == remaining[0];
  }

  lemma LaterClaim(target: ProjectId, existing: Option<ProjectId>, held: seq<ProjectId>, remaining: seq<ProjectId>,
                   id: ProjectId)
    requires held + remaining == ClaimIds(target, existing) && remaining != [] && id in held
    ensures id < remaining[0]
  {
    var ids := ClaimIds(target, existing);
    var i :| 0 <= i < |held| && held[i] == id;
    assert ids[i] == id && ids[|held|] == remaining[0];
  }

  /** A process waits only for locks that come after all it holds. */
  lemma WantsLaterLocks(s: State, p: ProcessId, g: Grant)
    requires Inv(s) && Wanted(PhaseOf(s, p)).Some? && g in s.locks && g.process == p
    ensures Precedes(g.resource, Wanted(PhaseOf(s, p)).value.resource)
  {
    var phase := PhaseOf(s, p);
    assert Knows(s.registry, phase);
    assert g in GrantsOf(s.locks, p) && g in Required(p, phase);
    match phase
    case Initializing(_, existing, target, _, _, held, remaining) =>
      assert g.resource.Location? && g.resource.id in held;
      if remaining != [] {
        LaterClaim(target, existing, held, remaining, g.resource.id);
      }
    case MoveRead(_, _, _, held, remaining) =>
      assert (held + remaining)[|held|] == remaining[0] && remaining[0] in held + remaining;
      if g.resource in held {
        LaterInOrder(held + remaining, held, remaining, g.resource);
      }
    case _ =>
  }

  /** `p` cannot go on because `q` holds the lock it needs. */
  ghost predicate WaitsFor(s: State, p: ProcessId, q: ProcessId) {
    Wanted(PhaseOf(s, p)).Some?
      && exists g :: g in s.locks && g.process == q && g.resource == Wanted(PhaseOf(s, p)).value.resource
  }

  lemma {:induction false} ChainAscends(s: State, ps: seq<ProcessId>, i: nat)
    requires Inv(s) && 0 < i < |ps| && forall k | 0 <= k < |ps| :: Wanted(PhaseOf(s, ps[k])).Some?
    requires forall k | 0 <= k < |ps| - 1 :: WaitsFor(s, ps[k], ps[k + 1])
    ensures Precedes(Wanted(PhaseOf(s, ps[0])).value.resource, Wanted(PhaseOf(s, ps[i])).value.resource)
  {
    hide Wanted, Precedes, Inv;
    var a, b, c :=
      Wanted(PhaseOf(s, ps[0])).value.resource, Wanted(PhaseOf(s, ps[i - 1])).value.resource,
      Wanted(PhaseOf(s, ps[i])).value.resource;
    assert WaitsFor(s, ps[i - 1], ps[i - 1 + 1]);
    var g :| g in s.locks && g.process == ps[i] && g.resource == b;
    WantsLaterLocks(s, ps[i], g);
    if i > 1 {
      ChainAscends(s, ps, i - 1);
      PrecedesIsOrder(a, b, c);
    }
  }

  function Successor(ps: seq<ProcessId>, i: nat): ProcessId
    requires i < |ps|
  {
    if i + 1 < |ps| then ps[i + 1] else ps[0]
  }

  /** No cycle of processes waits for each other: somebody can always go on. */
  lemma NoDeadlock(s: State, ps: seq<ProcessId>)
    requires Inv(s) && ps != []
    ensures exists i :: 0 <= i < |ps| && !WaitsFor(s, ps[i], Successor(ps, i))
  {
    hide Wanted, Precedes, Inv;
    var last := |ps| - 1;
    if forall i | 0 <= i < |ps| :: WaitsFor(s, ps[i], Successor(ps, i)) {
      forall k | 0 <= k < last
        ensures WaitsFor(s, ps[k], ps[k + 1])
      {
        assert WaitsFor(s, ps[k], Successor(ps, k));
      }
      assert WaitsFor(s, ps[last], Successor(ps, last));
      var want := Wanted(PhaseOf(s, ps[last])).value.resource;
      var first := Wanted(PhaseOf(s, ps[0])).value.resource;
      var g :| g in s.locks && g.process == ps[0] && g.resource == want;
      WantsLaterLocks(s, ps[0], g);
      if last > 0 {
        ChainAscends(s, ps, last);
      }
      PrecedesIsOrder(want, first, want);
    }
  }
}
