/**
 The shared task-repo checkout cache as a protocol.

 Any number of agents (a thread of some process) run `clone_task_repo`
 concurrently on one cache directory.  One step of the protocol is one file,
 lock or semaphore operation of one agent; between any two steps an agent may
 die, which releases its locks and leaves its files as they are.  Removing or
 creating a tree is not atomic: it happens path by path, in any order, and may
 stop early where the program ignores errors.

 A tree maps each path to the stamp of the clone that wrote it, so a tree mixed
 from two clones is visible as such.
 */
module RepoCache {
  import opened Common

  type Path = string
  type Tree = map<Path, nat>

  const GIT: Path := ".git"
  const CACHE_ATTEMPTS := 3

  /** The cache key is a hash of the clone url and the commit; hashing is taken as injective. */
  datatype Key = Key(url: string, commit: string)

  datatype Agent = Agent(process: nat, thread: nat)

  /** What does not change during a run: the files of each checkout and the fetch limit. */
  datatype World = World(paths: Key -> set<Path>, fetchLimit: Option<int>)

  ghost predicate Sensible(w: World) {
    forall k :: GIT in w.paths(k)
  }

  /** The cache directory.  `tmp` holds the private clone directory of an agent for a key. */
  datatype Files = Files(
    entry: map<Key, Tree>,
    marker: map<Key, string>,
    tmp: map<(Key, Agent), Tree>,
    clones: nat)

  /** Where an agent is in `clone_task_repo`. */
  datatype Pc =
    | Idle
    | WaitEx(key: Key, attempt: nat)
    | ExDir(key: Key, attempt: nat)
    | ExGit(key: Key, attempt: nat)
    | ExMarker(key: Key, attempt: nat)
    | WaitSlot(key: Key, attempt: nat)
    | Sweep(key: Key, attempt: nat)
    | Cloning(key: Key, attempt: nat, clone: nat)
    | Replacing(key: Key, attempt: nat, clone: nat)
    | Renamed(key: Key, attempt: nat)
    | MarkerOpen(key: Key, attempt: nat)
    | Discard(key: Key)
    | Evict(key: Key, attempt: nat)
    | EvictMarker(key: Key, attempt: nat, victim: Key)
    | EvictTree(key: Key, attempt: nat, victim: Key)
    | WaitSh(key: Key, attempt: nat)
    | ShDir(key: Key, attempt: nat)
    | ShGit(key: Key, attempt: nat)
    | ShMarker(key: Key, attempt: nat)
    | Copy(key: Key, dest: Tree)
    | WaitDirect(key: Key)
    | Direct(key: Key, clone: nat, dest: Tree)
    | Done(key: Key, dest: Tree)
    | Failed
    | Dead

  datatype State = State(fs: Files, pc: map<Agent, Pc>)

  // ---------------------------------------------------------------- locks

  /** The keys whose lock file an agent holds exclusively, shared, and whether it holds a fetch slot. */
  function ExKeys(pc: Pc): set<Key> {
    match pc
    case ExDir(k, _) => {k}
    case ExGit(k, _) => {k}
    case ExMarker(k, _) => {k}
    case WaitSlot(k, _) => {k}
    case Sweep(k, _) => {k}
    case Cloning(k, _, _) => {k}
    case Replacing(k, _, _) => {k}
    case Renamed(k, _) => {k}
    case MarkerOpen(k, _) => {k}
    case Discard(k) => {k}
    case Evict(k, _) => {k}
    case EvictMarker(k, _, v) => {k, v}
    case EvictTree(k, _, v) => {k, v}
    case _ => {}
  }

  function ShKeys(pc: Pc): set<Key> {
    match pc
    case ShDir(k, _) => {k}
    case ShGit(k, _) => {k}
    case ShMarker(k, _) => {k}
    case Copy(k, _) => {k}
    case _ => {}
  }

  predicate HasSlot(pc: Pc) {
    pc.Sweep? || pc.Cloning? || pc.Replacing? || pc.Renamed? || pc.MarkerOpen? || pc.Discard? || pc.Direct?
  }

  /** An flock is free for the agent when no other agent holds a conflicting one. */
  ghost predicate ExFree(s: State, a: Agent, k: Key) {
    forall b | b in s.pc && b != a :: k !in ExKeys(s.pc[b]) && k !in ShKeys(s.pc[b])
  }

  ghost predicate ShFree(s: State, a: Agent, k: Key) {
    forall b | b in s.pc && b != a :: k !in ExKeys(s.pc[b])
  }

  ghost function SlotHolders(s: State, process: nat): set<Agent> {
    set b | b in s.pc && b.process == process && HasSlot(s.pc[b])
  }

  /** The fetch semaphore is local to a process and absent for a missing or non-positive limit. */
  ghost predicate SlotFree(w: World, s: State, a: Agent) {
    w.fetchLimit.None? || w.fetchLimit.value <= 0 || |SlotHolders(s, a.process)| < w.fetchLimit.value
  }

  // ---------------------------------------------------------------- files

  /** What `_cache_ready` looks for. */
  predicate Ready(fs: Files, k: Key) {
    k in fs.entry && GIT in fs.entry[k] && k in fs.marker && fs.marker[k] == k.commit
  }

  /** Every path of the checkout, all from one clone. */
  ghost predicate Whole(w: World, k: Key, t: Tree) {
    t.Keys == w.paths(k) && forall p, q | p in t && q in t :: t[p] == t[q]
  }

  ghost predicate PartOf(w: World, k: Key, clone: nat, t: Tree) {
    t.Keys <= w.paths(k) && forall p | p in t :: t[p] == clone
  }

  /** One operation of a recursive removal of `m[x]`: one path goes, or the directory itself. */
  ghost predicate RemovesOne<X>(m: map<X, Tree>, m': map<X, Tree>, x: X) {
    x in m && (m' == m - {x} || exists p | p in m[x] :: m' == m[x := m[x] - {p}])
  }

  function Put(t: Tree, p: Path, clone: nat): Tree {
    t[p := clone]
  }

  predicate FullSha(commit: string) {
    |commit| == 40 && forall c | c in commit :: '0' <= c <= '9' || 'a' <= c <= 'f' || 'A' <= c <= 'F'
  }

  function AfterMiss(k: Key, attempt: nat): Pc {
    if attempt + 1 < CACHE_ATTEMPTS then WaitEx(k, attempt + 1) else WaitDirect(k)
  }

  // ---------------------------------------------------------------- steps

  /** A step of agent `a` that reads, locks or unlocks: no file of the cache changes. */
  ghost predicate Reads(w: World, s: State, a: Agent, pc: Pc, pc': Pc) {
    var fs := s.fs;
    match pc
    case Idle => pc'.WaitEx? && pc'.attempt == 0 && FullSha(pc'.key.commit)
    case WaitEx(k, n) => ExFree(s, a, k) && pc' == ExDir(k, n)
    case ExDir(k, n) => pc' == if k in fs.entry then ExGit(k, n) else WaitSlot(k, n)
    case ExGit(k, n) =>
      pc' == if k in fs.entry && GIT in fs.entry[k] then ExMarker(k, n) else WaitSlot(k, n)
    case ExMarker(k, n) =>
      pc' == if k in fs.marker && fs.marker[k] == k.commit then WaitSh(k, n) else WaitSlot(k, n)
    case WaitSlot(k, n) => SlotFree(w, s, a) && pc' == Sweep(k, n)
    case Cloning(k, n, c) =>
      (k, a) in fs.tmp && fs.tmp[(k, a)].Keys == w.paths(k) && pc' == Replacing(k, n, c)
    case Discard(_) => pc' == Failed
    case Evict(k, n) =>
      || (pc'.EvictMarker? && pc'.key == k && pc'.attempt == n && pc'.victim != k && ExFree(s, a, pc'.victim))
      || pc' == WaitSh(k, n)
    case EvictTree(k, n, v) => pc' == Evict(k, n)
    case WaitSh(k, n) => ShFree(s, a, k) && pc' == ShDir(k, n)
    case ShDir(k, n) => pc' == if k in fs.entry then ShGit(k, n) else AfterMiss(k, n)
    case ShGit(k, n) =>
      pc' == if k in fs.entry && GIT in fs.entry[k] then ShMarker(k, n) else AfterMiss(k, n)
    case ShMarker(k, n) =>
      pc' == if k in fs.marker && fs.marker[k] == k.commit then Copy(k, map[]) else AfterMiss(k, n)
    case Copy(k, d) =>
      && k in fs.entry
      && ((exists p | p in fs.entry[k].Keys - d.Keys :: pc' == Copy(k, Put(d, p, fs.entry[k][p])))
          || (fs.entry[k].Keys <= d.Keys && pc' == Done(k, d)))
    case Direct(k, c, d) =>
      || (exists p | p in w.paths(k) - d.Keys :: pc' == Direct(k, c, Put(d, p, c)))
      || (d.Keys == w.paths(k) && pc' == Done(k, d))
    case Done(_, _) => pc' == Idle
    case Failed => pc' == Idle
    case _ => false
  }

  /** A step of agent `a` that changes the cache directory. */
  ghost predicate Writes(w: World, s: State, a: Agent, pc: Pc, fs': Files, pc': Pc) {
    var fs := s.fs;
    match pc
    case Sweep(k, n) =>
      || (exists b :: RemovesOne(fs.tmp, fs'.tmp, (k, b)) && fs' == fs.(tmp := fs'.tmp) && pc' == pc)
      || (((k, a) !in fs.tmp || fs.tmp[(k, a)] == map[])
          && fs' == fs.(tmp := fs.tmp[(k, a) := map[]], clones := fs.clones + 1)
          && pc' == Cloning(k, n, fs.clones))
    case Cloning(k, n, c) =>
      && (k, a) in fs.tmp && pc' == pc
      && exists p | p in w.paths(k) - fs.tmp[(k, a)].Keys ::
           fs' == fs.(tmp := fs.tmp[(k, a) := Put(fs.tmp[(k, a)], p, c)])
    case Replacing(k, n, c) =>
      || (RemovesOne(fs.entry, fs'.entry, k) && fs' == fs.(entry := fs'.entry) && pc' == pc)
      || ((k !in fs.entry || fs.entry[k] == map[]) && (k, a) in fs.tmp
          && fs' == fs.(entry := fs.entry[k := fs.tmp[(k, a)]], tmp := fs.tmp - {(k, a)})
          && pc' == Renamed(k, n))
    case Renamed(k, n) => fs' == fs.(marker := fs.marker[k := ""]) && pc' == MarkerOpen(k, n)
    case MarkerOpen(k, n) => fs' == fs.(marker := fs.marker[k := k.commit]) && pc' == Evict(k, n)
    case Discard(k) => RemovesOne(fs.tmp, fs'.tmp, (k, a)) && fs' == fs.(tmp := fs'.tmp) && pc' == pc
    case EvictMarker(k, n, v) => fs' == fs.(marker := fs.marker - {v}) && pc' == EvictTree(k, n, v)
    case EvictTree(k, n, v) => RemovesOne(fs.entry, fs'.entry, v) && fs' == fs.(entry := fs'.entry) && pc' == pc
    case WaitDirect(k) =>
      SlotFree(w, s, a) && fs' == fs.(clones := fs.clones + 1) && pc' == Direct(k, fs.clones, map[])
    case _ => false
  }

  /** A step in which no operation reports an error. */
  ghost predicate Progress(w: World, s: State, a: Agent, fs': Files, pc': Pc)
    requires a in s.pc
  {
    || (fs' == s.fs && Reads(w, s, a, s.pc[a], pc'))
    || Writes(w, s, a, s.pc[a], fs', pc')
  }

  /** A step in which an operation fails: the exception unwinds, or a best-effort removal gives up. */
  predicate Fault(pc: Pc, pc': Pc) {
    match pc
    case Idle => pc' == Failed
    case Sweep(k, _) => pc' == Discard(k)
    case Cloning(k, _, _) => pc' == Discard(k)
    case Replacing(k, _, _) => pc' == Discard(k)
    case Renamed(k, _) => pc' == Discard(k)
    case MarkerOpen(k, _) => pc' == Discard(k)
    case EvictMarker(k, n, _) => pc' == Evict(k, n)
    case Copy(_, _) => pc' == Failed
    case Direct(_, _, _) => pc' == Failed
    case _ => false
  }

  /** A child process of a dead agent may still write that agent's private clone directory. */
  ghost predicate Orphan(s: State, b: Agent, fs': Files) {
    && b in s.pc && s.pc[b].Dead?
    && fs' == s.fs.(tmp := fs'.tmp)
    && forall k, c | c != b ::
         ((k, c) in fs'.tmp <==> (k, c) in s.fs.tmp) && ((k, c) in s.fs.tmp ==> fs'.tmp[(k, c)] == s.fs.tmp[(k, c)])
  }

  ghost predicate AgentStep(w: World, s: State, a: Agent, fs': Files, pc': Pc) {
    && a in s.pc
    && (Progress(w, s, a, fs', pc') || (fs' == s.fs && (Fault(s.pc[a], pc') || (!s.pc[a].Dead? && pc' == Dead))))
  }

  ghost predicate Step(w: World, s: State, s': State) {
    || (exists a | a in s'.pc :: AgentStep(w, s, a, s'.fs, s'.pc[a]) && s'.pc == s.pc[a := s'.pc[a]])
    || (exists b :: Orphan(s, b, s'.fs) && s'.pc == s.pc)
  }

  // ---------------------------------------------------------------- invariant

  /** What an agent may rely on, given where it is. */
  ghost predicate AgentInv(w: World, fs: Files, a: Agent, pc: Pc) {
    match pc
    case ExGit(k, _) => k in fs.entry
    case ExMarker(k, _) => k in fs.entry && GIT in fs.entry[k]
    case WaitSlot(k, _) => !Ready(fs, k)
    case Sweep(k, _) => !Ready(fs, k)
    case Cloning(k, _, c) => !Ready(fs, k) && (k, a) in fs.tmp && PartOf(w, k, c, fs.tmp[(k, a)])
    case Replacing(k, _, c) =>
      && !Ready(fs, k) && (k, a) in fs.tmp
      && PartOf(w, k, c, fs.tmp[(k, a)]) && fs.tmp[(k, a)].Keys == w.paths(k)
    case Renamed(k, _) => k in fs.entry && Whole(w, k, fs.entry[k])
    case MarkerOpen(k, _) => k in fs.entry && Whole(w, k, fs.entry[k])
    case Evict(k, _) => Ready(fs, k)
    case EvictMarker(k, _, v) => Ready(fs, k) && v != k
    case EvictTree(k, _, v) => Ready(fs, k) && v != k && !Ready(fs, v)
    case ShGit(k, _) => k in fs.entry
    case ShMarker(k, _) => k in fs.entry && GIT in fs.entry[k]
    case Copy(k, d) =>
      && Ready(fs, k) && d.Keys <= fs.entry[k].Keys
      && forall p | p in d :: d[p] == fs.entry[k][p]
    case Direct(k, c, d) => PartOf(w, k, c, d)
    case Done(k, d) => Whole(w, k, d)
    case _ => true
  }

  /** The claim the cache rests on: a ready entry is a whole checkout. */
  ghost predicate ReadyIsWhole(w: World, fs: Files) {
    forall k | Ready(fs, k) :: Whole(w, k, fs.entry[k])
  }

  ghost predicate Exclusive(pcs: map<Agent, Pc>) {
    forall a, b, k | a in pcs && b in pcs && a != b && k in ExKeys(pcs[a]) ::
      k !in ExKeys(pcs[b]) && k !in ShKeys(pcs[b])
  }

  ghost predicate Inv(w: World, s: State) {
    && Sensible(w)
    && ReadyIsWhole(w, s.fs)
    && Exclusive(s.pc)
    && forall a | a in s.pc :: AgentInv(w, s.fs, a, s.pc[a])
  }

  /** A step of `pc` leaves every file of a key it does not hold exclusively as it was. */
  ghost predicate Frame(fs: Files, fs': Files, pc: Pc) {
    && (forall k | k !in ExKeys(pc) ::
          && (k in fs.entry <==> k in fs'.entry) && (k in fs.entry ==> fs'.entry[k] == fs.entry[k])
          && (k in fs.marker <==> k in fs'.marker) && (k in fs.marker ==> fs'.marker[k] == fs.marker[k]))
    && (forall k, b | k !in ExKeys(pc) ::
          ((k, b) in fs.tmp <==> (k, b) in fs'.tmp) && ((k, b) in fs.tmp ==> fs'.tmp[(k, b)] == fs.tmp[(k, b)]))
  }

  lemma StepIsFramed(w: World, s: State, a: Agent, fs': Files, pc': Pc)
    requires AgentStep(w, s, a, fs', pc')
    ensures Frame(s.fs, fs', s.pc[a])
  {
    if Writes(w, s, a, s.pc[a], fs', pc') {
      WriteIsFramed(w, s, a, s.pc[a], fs', pc');
    }
  }

  lemma WriteIsFramed(w: World, s: State, a: Agent, pc: Pc, fs': Files, pc': Pc)
    requires Writes(w, s, a, pc, fs', pc')
    ensures Frame(s.fs, fs', pc)
  {
    match pc
    case Sweep(_, _) =>
    case Cloning(_, _, _) =>
    case Replacing(_, _, _) =>
    case EvictTree(_, _, v) => assert v in ExKeys(pc);
    case _ =>
  }

  lemma CopyKeepsFacts(w: World, s: State, a: Agent, pc: Pc, pc': Pc)
    requires ReadyIsWhole(w, s.fs) && AgentInv(w, s.fs, a, pc) && Reads(w, s, a, pc, pc') && (pc.Copy? || pc.Direct?)
    ensures AgentInv(w, s.fs, a, pc')
  {
    if pc.Copy? {
      assert Whole(w, pc.key, s.fs.entry[pc.key]);
    }
  }

  /** The stepping agent keeps its own facts and the cache claim. */
  lemma ReadKeepsFacts(w: World, s: State, a: Agent, pc: Pc, pc': Pc)
    requires ReadyIsWhole(w, s.fs) && AgentInv(w, s.fs, a, pc) && Reads(w, s, a, pc, pc')
    ensures AgentInv(w, s.fs, a, pc')
  {
    if pc.Copy? || pc.Direct? {
      CopyKeepsFacts(w, s, a, pc, pc');
    }
  }

  lemma WriteKeepsFacts(w: World, s: State, a: Agent, pc: Pc, fs': Files, pc': Pc)
    requires Sensible(w) && ReadyIsWhole(w, s.fs) && AgentInv(w, s.fs, a, pc) && Writes(w, s, a, pc, fs', pc')
    ensures AgentInv(w, fs', a, pc') && ReadyIsWhole(w, fs')
  {
    WriteIsFramed(w, s, a, pc, fs', pc');
    match pc
    case Sweep(_, _) =>
    case Cloning(_, _, _) =>
    case Replacing(_, _, _) =>
    case EvictTree(_, _, v) =>
    case _ =>
  }

  lemma OwnFactsKept(w: World, s: State, a: Agent, fs': Files, pc': Pc)
    requires Inv(w, s) && AgentStep(w, s, a, fs', pc')
    ensures AgentInv(w, fs', a, pc') && ReadyIsWhole(w, fs')
  {
    assert AgentInv(w, s.fs, a, s.pc[a]);
    if Writes(w, s, a, s.pc[a], fs', pc') {
      WriteKeepsFacts(w, s, a, s.pc[a], fs', pc');
    } else if Reads(w, s, a, s.pc[a], pc') {
      ReadKeepsFacts(w, s, a, s.pc[a], pc');
    }
  }

  /** A step takes only locks that are free. */
  ghost predicate GainsOnlyFree(s: State, a: Agent, pc: Pc, pc': Pc) {
    && (forall k | k in ExKeys(pc') :: k in ExKeys(pc) || ExFree(s, a, k))
    && (forall k | k in ShKeys(pc') :: k in ShKeys(pc) || ShFree(s, a, k))
  }

  lemma OtherReadsGainNoExclusive(w: World, s: State, a: Agent, pc: Pc, pc': Pc)
    requires Reads(w, s, a, pc, pc') && !pc.WaitEx? && !pc.Evict?
    ensures ExKeys(pc') <= ExKeys(pc)
  {
  }

  lemma ReadGainsFreeExclusive(w: World, s: State, a: Agent, pc: Pc, pc': Pc)
    requires Reads(w, s, a, pc, pc')
    ensures forall k | k in ExKeys(pc') :: k in ExKeys(pc) || ExFree(s, a, k)
  {
    if !pc.WaitEx? && !pc.Evict? {
      OtherReadsGainNoExclusive(w, s, a, pc, pc');
    }
  }

  lemma ReadGainsFreeShared(w: World, s: State, a: Agent, pc: Pc, pc': Pc)
    requires Reads(w, s, a, pc, pc')
    ensures forall k | k in ShKeys(pc') :: k in ShKeys(pc) || ShFree(s, a, k)
  {
    match pc
    case WaitSh(k, _) =>
    case _ =>
  }

  lemma ReadGainsOnlyFree(w: World, s: State, a: Agent, pc: Pc, pc': Pc)
    requires Reads(w, s, a, pc, pc')
    ensures GainsOnlyFree(s, a, pc, pc')
  {
    ReadGainsFreeExclusive(w, s, a, pc, pc');
    ReadGainsFreeShared(w, s, a, pc, pc');
  }

  lemma WriteGainsNothing(w: World, s: State, a: Agent, pc: Pc, fs': Files, pc': Pc)
    requires Writes(w, s, a, pc, fs', pc')
    ensures ExKeys(pc') <= ExKeys(pc) && ShKeys(pc') <= ShKeys(pc)
  {
  }

  lemma FaultGainsNothing(pc: Pc, pc': Pc)
    requires Fault(pc, pc') || pc' == Dead
    ensures ExKeys(pc') <= ExKeys(pc) && ShKeys(pc') <= ShKeys(pc)
  {
  }

  lemma FreeGainIsApart(s: State, a: Agent, pc': Pc, b: Agent, k: Key)
    requires Exclusive(s.pc) && a in s.pc && GainsOnlyFree(s, a, s.pc[a], pc') && b in s.pc && b != a
    ensures k in ExKeys(pc') ==> k !in ExKeys(s.pc[b]) && k !in ShKeys(s.pc[b])
    ensures k in ExKeys(s.pc[b]) ==> k !in ShKeys(pc')
  {
    assert k in ExKeys(pc') ==> k in ExKeys(s.pc[a]) || ExFree(s, a, k);
    assert k in ShKeys(pc') ==> k in ShKeys(s.pc[a]) || ShFree(s, a, k);
  }

  lemma FreeGainsKeepExclusive(s: State, a: Agent, pc': Pc)
    requires Exclusive(s.pc) && a in s.pc && GainsOnlyFree(s, a, s.pc[a], pc')
    ensures Exclusive(s.pc[a := pc'])
  {
    var after := s.pc[a := pc'];
    forall b, c, k | b in after && c in after && b != c && k in ExKeys(after[b])
      ensures k !in ExKeys(after[c]) && k !in ShKeys(after[c])
    {
      if b == a {
        FreeGainIsApart(s, a, pc', c, k);
      } else if c == a {
        FreeGainIsApart(s, a, pc', b, k);
      }
    }
  }

  lemma LocksStayExclusive(w: World, s: State, a: Agent, fs': Files, pc': Pc)
    requires Exclusive(s.pc) && AgentStep(w, s, a, fs', pc')
    ensures Exclusive(s.pc[a := pc'])
  {
    if Reads(w, s, a, s.pc[a], pc') {
      ReadGainsOnlyFree(w, s, a, s.pc[a], pc');
    } else if Writes(w, s, a, s.pc[a], fs', pc') {
      WriteGainsNothing(w, s, a, s.pc[a], fs', pc');
    } else {
      FaultGainsNothing(s.pc[a], pc');
    }
    FreeGainsKeepExclusive(s, a, pc');
  }

  /** Another agent's facts survive, because the files they speak of are locked by it. */
  lemma OtherFactsKept(w: World, fs: Files, fs': Files, pc: Pc, b: Agent, pcb: Pc)
    requires AgentInv(w, fs, b, pcb) && Frame(fs, fs', pc)
    requires ExKeys(pc) !! (ExKeys(pcb) + ShKeys(pcb))
    ensures AgentInv(w, fs', b, pcb)
  {
    assert forall k | k in ExKeys(pcb) + ShKeys(pcb) :: k !in ExKeys(pc);
    match pcb
    case EvictTree(_, _, v) => assert v in ExKeys(pcb);
    case _ =>
  }

  lemma AgentStepKeepsInv(w: World, s: State, s': State, a: Agent)
    requires Inv(w, s) && a in s'.pc && AgentStep(w, s, a, s'.fs, s'.pc[a]) && s'.pc == s.pc[a := s'.pc[a]]
    ensures Inv(w, s')
  {
    StepIsFramed(w, s, a, s'.fs, s'.pc[a]);
    OwnFactsKept(w, s, a, s'.fs, s'.pc[a]);
    LocksStayExclusive(w, s, a, s'.fs, s'.pc[a]);
    forall b | b in s'.pc
      ensures AgentInv(w, s'.fs, b, s'.pc[b])
    {
      if b != a {
        assert AgentInv(w, s.fs, b, s.pc[b]);
        OtherFactsKept(w, s.fs, s'.fs, s.pc[a], b, s.pc[b]);
      }
    }
  }

  lemma StepKeepsInv(w: World, s: State, s': State)
    requires Inv(w, s) && Step(w, s, s')
    ensures Inv(w, s')
  {
    if a :| a in s'.pc && AgentStep(w, s, a, s'.fs, s'.pc[a]) && s'.pc == s.pc[a := s'.pc[a]] {
      AgentStepKeepsInv(w, s, s', a);
    } else {
      var b :| Orphan(s, b, s'.fs) && s'.pc == s.pc;
      forall a | a in s'.pc
        ensures AgentInv(w, s'.fs, a, s'.pc[a])
      {
        assert AgentInv(w, s.fs, a, s.pc[a]);
      }
    }
  }

  // ---------------------------------------------------------------- safety over runs

  /** A run starts with every agent idle on a directory whose ready entries, if any, are whole. */
  ghost predicate IsRun(w: World, run: seq<State>) {
    && Sensible(w)
    && |run| > 0
    && ReadyIsWhole(w, run[0].fs)
    && (forall a | a in run[0].pc :: run[0].pc[a].Idle?)
    && forall i | 0 <= i < |run| - 1 :: Step(w, run[i], run[i + 1])
  }

  lemma {:induction false} RunKeepsInv(w: World, run: seq<State>, i: nat)
    requires IsRun(w, run) && i < |run|
    ensures Inv(w, run[i])
  {
    if i > 0 {
      RunKeepsInv(w, run, i - 1);
      StepKeepsInv(w, run[i - 1], run[i]);
    }
  }

  /** In every interleaving, with agents dying anywhere, a ready entry is a whole checkout
      and every tree handed out is a whole checkout made by one clone. */
  lemma HandedOutTreesAreWhole(w: World, run: seq<State>, i: nat, a: Agent)
    requires IsRun(w, run) && i < |run| && a in run[i].pc
    ensures forall k | Ready(run[i].fs, k) :: Whole(w, k, run[i].fs.entry[k])
    ensures run[i].pc[a].Done? ==> Whole(w, run[i].pc[a].key, run[i].pc[a].dest)
  {
    RunKeepsInv(w, run, i);
    assert AgentInv(w, run[i].fs, a, run[i].pc[a]);
  }

  ghost predicate SameKeyFiles(fs: Files, fs': Files, k: Key, owner: Agent) {
    && (k in fs.entry <==> k in fs'.entry) && (k in fs.entry ==> fs'.entry[k] == fs.entry[k])
    && (k in fs.marker <==> k in fs'.marker) && (k in fs.marker ==> fs'.marker[k] == fs.marker[k])
    && ((k, owner) in fs.tmp <==> (k, owner) in fs'.tmp)
    && ((k, owner) in fs.tmp ==> fs'.tmp[(k, owner)] == fs.tmp[(k, owner)])
  }

  /** While an agent holds a key's lock, shared or exclusive, no step of another agent (no
      eviction, repopulation or sweep of stale clones) touches the key's entry, marker or the
      agent's own clone directory. */
  lemma HeldKeyIsUndisturbed(w: World, run: seq<State>, i: nat, a: Agent, b: Agent, k: Key)
    requires IsRun(w, run) && i + 1 < |run|
    requires a in run[i].pc && k in ExKeys(run[i].pc[a]) + ShKeys(run[i].pc[a])
    requires b != a && b in run[i + 1].pc && AgentStep(w, run[i], b, run[i + 1].fs, run[i + 1].pc[b])
    ensures SameKeyFiles(run[i].fs, run[i + 1].fs, k, a)
  {
    RunKeepsInv(w, run, i);
    StepIsFramed(w, run[i], b, run[i + 1].fs, run[i + 1].pc[b]);
    assert k !in ExKeys(run[i].pc[b]);
  }

  // ---------------------------------------------------------------- no deadlock

  predicate Busy(pc: Pc) {
    !pc.Idle? && !pc.Done? && !pc.Failed? && !pc.Dead?
  }

  predicate Waiting(pc: Pc) {
    pc.WaitEx? || pc.WaitSh? || pc.WaitSlot? || pc.WaitDirect?
  }

  ghost predicate CanProgress(w: World, s: State, a: Agent)
    requires a in s.pc
  {
    exists fs', pc' :: Progress(w, s, a, fs', pc')
  }

  /** `b` holds what `a` is waiting for. */
  ghost predicate WaitsFor(s: State, a: Agent, b: Agent)
    requires a in s.pc && b in s.pc
  {
    match s.pc[a]
    case WaitEx(k, _) => b != a && k in ExKeys(s.pc[b]) + ShKeys(s.pc[b])
    case WaitSh(k, _) => b != a && k in ExKeys(s.pc[b])
    case WaitSlot(_, _) => b in SlotHolders(s, a.process)
    case WaitDirect(_) => b in SlotHolders(s, a.process)
    case _ => false
  }

  lemma RemovalCanProgress(w: World, s: State, a: Agent)
    requires a in s.pc && (s.pc[a].Sweep? || s.pc[a].Replacing?) && AgentInv(w, s.fs, a, s.pc[a])
    ensures CanProgress(w, s, a)
  {
    var fs := s.fs;
    match s.pc[a]
    case Sweep(k, n) =>
      if (k, a) in fs.tmp && fs.tmp[(k, a)] != map[] {
        var fs' := fs.(tmp := fs.tmp - {(k, a)});
        assert RemovesOne(fs.tmp, fs'.tmp, (k, a));
        assert Writes(w, s, a, s.pc[a], fs', s.pc[a]);
        assert Progress(w, s, a, fs', s.pc[a]);
      } else {
        var fs' := fs.(tmp := fs.tmp[(k, a) := map[]], clones := fs.clones + 1);
        assert Progress(w, s, a, fs', Cloning(k, n, fs.clones));
      }
    case Replacing(k, n, c) =>
      if k in fs.entry && fs.entry[k] != map[] {
        var fs' := fs.(entry := fs.entry - {k});
        assert RemovesOne(fs.entry, fs'.entry, k);
        assert Progress(w, s, a, fs', s.pc[a]);
      } else {
        var fs' := fs.(entry := fs.entry[k := fs.tmp[(k, a)]], tmp := fs.tmp - {(k, a)});
        assert Progress(w, s, a, fs', Renamed(k, n));
      }
  }

  lemma NothingMissing(whole: set<Path>, part: set<Path>)
    requires forall p :: p !in whole - part
    ensures whole <= part
  {
    forall p | p in whole ensures p in part {
      assert p !in whole - part;
    }
  }

  lemma CopyCanProgress(w: World, s: State, a: Agent)
    requires a in s.pc && s.pc[a].Copy? && AgentInv(w, s.fs, a, s.pc[a])
    ensures CanProgress(w, s, a)
  {
    var Copy(k, d) := s.pc[a];
    if p :| p in s.fs.entry[k].Keys - d.Keys {
      assert Progress(w, s, a, s.fs, Copy(k, Put(d, p, s.fs.entry[k][p])));
    } else {
      NothingMissing(s.fs.entry[k].Keys, d.Keys);
      assert Progress(w, s, a, s.fs, Done(k, d));
    }
  }

  lemma FillingCanProgress(w: World, s: State, a: Agent)
    requires a in s.pc && (s.pc[a].Cloning? || s.pc[a].Copy? || s.pc[a].Direct?) && AgentInv(w, s.fs, a, s.pc[a])
    ensures CanProgress(w, s, a)
  {
    var fs := s.fs;
    match s.pc[a]
    case Cloning(k, n, c) =>
      if p :| p in w.paths(k) - fs.tmp[(k, a)].Keys {
        var fs' := fs.(tmp := fs.tmp[(k, a) := Put(fs.tmp[(k, a)], p, c)]);
        assert Progress(w, s, a, fs', s.pc[a]);
      } else {
        NothingMissing(w.paths(k), fs.tmp[(k, a)].Keys);
        assert Progress(w, s, a, fs, Replacing(k, n, c));
      }
    case Copy(_, _) => CopyCanProgress(w, s, a);
    case Direct(k, c, d) =>
      if p :| p in w.paths(k) - d.Keys {
        assert Progress(w, s, a, fs, Direct(k, c, Put(d, p, c)));
      } else {
        NothingMissing(w.paths(k), d.Keys);
        assert Progress(w, s, a, fs, Done(k, d));
      }
  }

  /** An agent that waits for no lock can take a step without any error. */
  lemma RunnerCanProgress(w: World, s: State, a: Agent)
    requires a in s.pc && Busy(s.pc[a]) && !Waiting(s.pc[a]) && AgentInv(w, s.fs, a, s.pc[a])
    ensures CanProgress(w, s, a)
  {
    var fs := s.fs;
    match s.pc[a]
    case ExDir(k, n) => assert Progress(w, s, a, fs, if k in fs.entry then ExGit(k, n) else WaitSlot(k, n));
    case ExGit(k, n) =>
      assert Progress(w, s, a, fs, if k in fs.entry && GIT in fs.entry[k] then ExMarker(k, n) else WaitSlot(k, n));
    case ExMarker(k, n) =>
      assert Progress(w, s, a, fs, if k in fs.marker && fs.marker[k] == k.commit then WaitSh(k, n) else WaitSlot(k, n));
    case Renamed(k, n) => assert Progress(w, s, a, fs.(marker := fs.marker[k := ""]), MarkerOpen(k, n));
    case MarkerOpen(k, n) => assert Progress(w, s, a, fs.(marker := fs.marker[k := k.commit]), Evict(k, n));
    case Discard(_) => assert Progress(w, s, a, fs, Failed);
    case Evict(k, n) => assert Progress(w, s, a, fs, WaitSh(k, n));
    case EvictMarker(k, n, v) => assert Progress(w, s, a, fs.(marker := fs.marker - {v}), EvictTree(k, n, v));
    case EvictTree(k, n, _) => assert Progress(w, s, a, fs, Evict(k, n));
    case ShDir(k, n) => assert Progress(w, s, a, fs, if k in fs.entry then ShGit(k, n) else AfterMiss(k, n));
    case ShGit(k, n) =>
      assert Progress(w, s, a, fs, if k in fs.entry && GIT in fs.entry[k] then ShMarker(k, n) else AfterMiss(k, n));
    case ShMarker(k, n) =>
      assert Progress(w, s, a, fs,
          if k in fs.marker && fs.marker[k] == k.commit then Copy(k, map[]) else AfterMiss(k, n));
    case Sweep(_, _) => RemovalCanProgress(w, s, a);
    case Replacing(_, _, _) => RemovalCanProgress(w, s, a);
    case _ => FillingCanProgress(w, s, a);
  }

  lemma SlotWaiterCanProgress(w: World, s: State, a: Agent)
    requires Inv(w, s) && a in s.pc && (s.pc[a].WaitSlot? || s.pc[a].WaitDirect?)
    ensures CanProgress(w, s, a) || exists b | b in s.pc :: WaitsFor(s, a, b) && CanProgress(w, s, b)
  {
    if SlotFree(w, s, a) {
      match s.pc[a]
      case WaitSlot(k, n) => assert Progress(w, s, a, s.fs, Sweep(k, n));
      case WaitDirect(k) =>
        assert Progress(w, s, a, s.fs.(clones := s.fs.clones + 1), Direct(k, s.fs.clones, map[]));
    } else {
      assert SlotHolders(s, a.process) != {};
      var b :| b in SlotHolders(s, a.process);
      assert AgentInv(w, s.fs, b, s.pc[b]);
      RunnerCanProgress(w, s, b);
      assert WaitsFor(s, a, b);
    }
  }

  /** Deadlock freedom, agent by agent: a busy agent can step, or waits for one that can, or
      waits for one that waits for one that can.  No longer chain of waits exists. */
  lemma NoDeadlock(w: World, run: seq<State>, i: nat, a: Agent)
    requires IsRun(w, run) && i < |run| && a in run[i].pc && Busy(run[i].pc[a])
    ensures var s := run[i];
      || CanProgress(w, s, a)
      || exists b | b in s.pc :: WaitsFor(s, a, b)
           && (CanProgress(w, s, b) || exists c | c in s.pc :: WaitsFor(s, b, c) && CanProgress(w, s, c))
  {
    RunKeepsInv(w, run, i);
    var s := run[i];
    assert AgentInv(w, s.fs, a, s.pc[a]);
    match s.pc[a]
    case WaitEx(k, n) =>
      if b :| b in s.pc && WaitsFor(s, a, b) {
        HolderCanProgress(w, s, a, b);
      } else {
        assert ExFree(s, a, k) by {
          forall b | b in s.pc && b != a ensures k !in ExKeys(s.pc[b]) && k !in ShKeys(s.pc[b]) {
            assert !WaitsFor(s, a, b);
          }
        }
        assert Progress(w, s, a, s.fs, ExDir(k, n));
      }
    case WaitSh(k, n) =>
      if b :| b in s.pc && WaitsFor(s, a, b) {
        HolderCanProgress(w, s, a, b);
      } else {
        assert ShFree(s, a, k) by {
          forall b | b in s.pc && b != a ensures k !in ExKeys(s.pc[b]) {
            assert !WaitsFor(s, a, b);
          }
        }
        assert Progress(w, s, a, s.fs, ShDir(k, n));
      }
    case WaitSlot(_, _) => SlotWaiterCanProgress(w, s, a);
    case WaitDirect(_) => SlotWaiterCanProgress(w, s, a);
    case _ => RunnerCanProgress(w, s, a);
  }

  /** The holder of a key's lock waits for nothing but a fetch slot. */
  lemma HolderCanProgress(w: World, s: State, a: Agent, b: Agent)
    requires Inv(w, s) && a in s.pc && b in s.pc && (s.pc[a].WaitEx? || s.pc[a].WaitSh?) && WaitsFor(s, a, b)
    ensures CanProgress(w, s, b) || exists c | c in s.pc :: WaitsFor(s, b, c) && CanProgress(w, s, c)
  {
    assert AgentInv(w, s.fs, b, s.pc[b]);
    if s.pc[b].WaitSlot? {
      SlotWaiterCanProgress(w, s, b);
    } else {
      RunnerCanProgress(w, s, b);
    }
  }
}
