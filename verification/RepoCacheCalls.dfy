/**
 What one call of `clone_task_repo` does over a run of the protocol: how often it
 tries, when its first phase ends, and how many calls fetch at once.
 */
module RepoCacheCalls {
  import opened Common
  import opened RepoCache

  function PcAt(run: seq<State>, a: Agent, i: nat): Pc
    requires i < |run|
  {
    if a in run[i].pc then run[i].pc[a] else Idle
  }

  lemma StepOfAgent(w: World, run: seq<State>, i: nat, a: Agent)
    requires IsRun(w, run) && i + 1 < |run|
    ensures PcAt(run, a, i + 1) == PcAt(run, a, i)
         || AgentStep(w, run[i], a, run[i + 1].fs, PcAt(run, a, i + 1))
  {
    assert Step(w, run[i], run[i + 1]);
  }

  // ---------------------------------------------------------------- attempts

  /** The second phase of an attempt found no ready entry. */
  predicate Missed(pc: Pc, pc': Pc) {
    (pc.ShDir? || pc.ShGit? || pc.ShMarker?) && (pc'.WaitEx? || pc'.WaitDirect?)
  }

  /** How often the call an agent is in has missed so far. */
  function Misses(run: seq<State>, a: Agent, i: nat): nat
    requires i < |run|
  {
    if i == 0 || PcAt(run, a, i).Idle? then 0
    else Misses(run, a, i - 1) + if Missed(PcAt(run, a, i - 1), PcAt(run, a, i)) then 1 else 0
  }

  predicate HasAttempt(pc: Pc) {
    || pc.WaitEx? || pc.ExDir? || pc.ExGit? || pc.ExMarker? || pc.WaitSlot? || pc.Sweep? || pc.Cloning? || pc.Replacing?
    || pc.Renamed? || pc.MarkerOpen? || pc.Evict? || pc.EvictMarker? || pc.EvictTree?
    || pc.WaitSh? || pc.ShDir? || pc.ShGit? || pc.ShMarker?
  }

  predicate ClonesForItself(pc: Pc) {
    pc.WaitDirect? || pc.Direct?
  }

  predicate Counted(pc: Pc, misses: nat) {
    && (HasAttempt(pc) ==> pc.attempt == misses && misses <= 2)
    && (pc.Discard? || pc.Copy? ==> misses <= 2)
    && (ClonesForItself(pc) ==> misses == 3)
    && misses <= 3
  }

  lemma LookKeepsCount(w: World, s: State, a: Agent, pc: Pc, pc': Pc, misses: nat)
    requires Reads(w, s, a, pc, pc') && Counted(pc, misses) && (pc.ShDir? || pc.ShGit? || pc.ShMarker?)
    ensures Counted(pc', misses + if Missed(pc, pc') then 1 else 0)
  {
  }

  lemma ReadKeepsCount(w: World, s: State, a: Agent, pc: Pc, pc': Pc, misses: nat)
    requires Reads(w, s, a, pc, pc') && Counted(pc, misses) && (pc.Idle? ==> misses == 0)
    ensures pc'.Idle? || Counted(pc', misses + if Missed(pc, pc') then 1 else 0)
  {
    if pc.ShDir? || pc.ShGit? || pc.ShMarker? {
      LookKeepsCount(w, s, a, pc, pc', misses);
    }
  }

  lemma WriteKeepsCount(w: World, s: State, a: Agent, pc: Pc, fs': Files, pc': Pc, misses: nat)
    requires Writes(w, s, a, pc, fs', pc') && Counted(pc, misses)
    ensures Counted(pc', misses) && !Missed(pc, pc')
  {
  }

  /** A call tries the cache three times and clones for itself exactly after its third miss: whatever
      others do, its attempt number is the number of its misses so far, of which there are at most
      two while it still tries and three once it has given the cache up. */
  lemma {:induction false} CallsMissThreeTimes(w: World, run: seq<State>, i: nat, a: Agent)
    requires IsRun(w, run) && i < |run|
    ensures Counted(PcAt(run, a, i), Misses(run, a, i))
    ensures PcAt(run, a, i).Idle? ==> Misses(run, a, i) == 0
  {
    if i > 0 && !PcAt(run, a, i).Idle? {
      CallsMissThreeTimes(w, run, i - 1, a);
      StepOfAgent(w, run, i - 1, a);
      var pc, pc', misses := PcAt(run, a, i - 1), PcAt(run, a, i), Misses(run, a, i - 1);
      if pc' != pc {
        if Reads(w, run[i - 1], a, pc, pc') {
          ReadKeepsCount(w, run[i - 1], a, pc, pc', misses);
        } else if Writes(w, run[i - 1], a, pc, run[i].fs, pc') {
          WriteKeepsCount(w, run[i - 1], a, pc, run[i].fs, pc', misses);
        }
      }
    }
  }

  // ---------------------------------------------------------------- keys

  predicate HasKey(pc: Pc) {
    !pc.Idle? && !pc.Failed? && !pc.Dead?
  }

  predicate HexDigit(c: char) {
    c in {'0', '1', '2', '3', '4', '5', '6', '7', '8', '9', 'a', 'b', 'c', 'd', 'e', 'f', 'A', 'B', 'C', 'D', 'E', 'F'}
  }

  predicate FortyHexDigits(commit: string) {
    |commit| == 40 && forall c | c in commit :: HexDigit(c)
  }

  lemma FullShasAreHex(commit: string)
    requires FullSha(commit)
    ensures FortyHexDigits(commit)
  {
  }

  lemma ReadKeepsKey(w: World, s: State, a: Agent, pc: Pc, pc': Pc)
    requires Reads(w, s, a, pc, pc') && HasKey(pc')
    ensures if HasKey(pc) then pc'.key == pc.key else FullSha(pc'.key.commit)
  {
  }

  lemma WriteKeepsKey(w: World, s: State, a: Agent, pc: Pc, fs': Files, pc': Pc)
    requires Writes(w, s, a, pc, fs', pc')
    ensures HasKey(pc) && HasKey(pc') && pc'.key == pc.key
  {
  }

  lemma StepKeepsKey(w: World, s: State, a: Agent, fs': Files, pc': Pc)
    requires AgentStep(w, s, a, fs', pc') && HasKey(pc')
    ensures if HasKey(s.pc[a]) then pc'.key == s.pc[a].key else FullSha(pc'.key.commit)
  {
    if Reads(w, s, a, s.pc[a], pc') {
      ReadKeepsKey(w, s, a, s.pc[a], pc');
    } else if Writes(w, s, a, s.pc[a], fs', pc') {
      WriteKeepsKey(w, s, a, s.pc[a], fs', pc');
    }
  }

  /** A call works on one key from beginning to end, and that names a full commit. */
  lemma {:induction false} KeysAreFullCommits(w: World, run: seq<State>, i: nat, a: Agent)
    requires IsRun(w, run) && i < |run| && HasKey(PcAt(run, a, i))
    ensures FortyHexDigits(PcAt(run, a, i).key.commit)
    ensures i > 0 && (HasKey(PcAt(run, a, i - 1)) ==> PcAt(run, a, i - 1).key == PcAt(run, a, i).key)
  {
    assert a in run[0].pc ==> run[0].pc[a].Idle?;
    StepOfAgent(w, run, i - 1, a);
    if HasKey(PcAt(run, a, i - 1)) {
      KeysAreFullCommits(w, run, i - 1, a);
    }
    if PcAt(run, a, i) != PcAt(run, a, i - 1) {
      StepKeepsKey(w, run[i - 1], a, run[i].fs, PcAt(run, a, i));
      if !HasKey(PcAt(run, a, i - 1)) {
        FullShasAreHex(PcAt(run, a, i).key.commit);
      }
    }
  }

  // ---------------------------------------------------------------- phases

  lemma ReleaseIsReady(w: World, s: State, a: Agent, fs': Files, pc': Pc)
    requires a in s.pc && AgentInv(w, s.fs, a, s.pc[a]) && AgentStep(w, s, a, fs', pc')
    requires !s.pc[a].WaitSh? && pc'.WaitSh?
    ensures fs' == s.fs && Ready(fs', pc'.key)
  {
    assert Reads(w, s, a, s.pc[a], pc');
  }

  /** The first phase ends only on an entry that a look would accept, whether it was found or made,
      and whatever the call evicted in between. */
  lemma FirstPhaseEndsReady(w: World, run: seq<State>, i: nat, a: Agent)
    requires IsRun(w, run) && i + 1 < |run|
    requires !PcAt(run, a, i).WaitSh? && PcAt(run, a, i + 1).WaitSh?
    ensures var (fs, k) := (run[i + 1].fs, PcAt(run, a, i + 1).key);
      k in fs.entry && GIT in fs.entry[k] && k in fs.marker && fs.marker[k] == k.commit
  {
    RunKeepsInv(w, run, i);
    StepOfAgent(w, run, i, a);
    ReleaseIsReady(w, run[i], a, run[i + 1].fs, PcAt(run, a, i + 1));
  }

  /** A call clones into the cache only while its entry is not accepted. */
  lemma ReadyEntriesAreNotCloned(w: World, run: seq<State>, i: nat, a: Agent)
    requires IsRun(w, run) && i < |run|
    requires PcAt(run, a, i).Cloning? || PcAt(run, a, i).Replacing?
    ensures var (fs, k) := (run[i].fs, PcAt(run, a, i).key);
      !(k in fs.entry && GIT in fs.entry[k] && k in fs.marker && fs.marker[k] == k.commit)
  {
    RunKeepsInv(w, run, i);
    assert AgentInv(w, run[i].fs, a, run[i].pc[a]);
  }

  // ---------------------------------------------------------------- fetches

  /** The agents of a process that fetch from the remote at this moment. */
  ghost function Fetching(s: State, process: nat): set<Agent> {
    set b | b in s.pc && b.process == process && (s.pc[b].Cloning? || s.pc[b].Direct?)
  }

  ghost predicate WithinSlots(w: World, s: State) {
    w.fetchLimit.Some? && w.fetchLimit.value > 0 ==> forall p :: |SlotHolders(s, p)| <= w.fetchLimit.value
  }

  lemma SlotsGainOnlyFree(w: World, s: State, a: Agent, fs': Files, pc': Pc)
    requires AgentStep(w, s, a, fs', pc') && HasSlot(pc') && !HasSlot(s.pc[a])
    ensures SlotFree(w, s, a)
  {
  }

  lemma StepKeepsSlots(w: World, s: State, s': State)
    requires WithinSlots(w, s) && Step(w, s, s')
    ensures WithinSlots(w, s')
  {
    if a :| a in s'.pc && AgentStep(w, s, a, s'.fs, s'.pc[a]) && s'.pc == s.pc[a := s'.pc[a]] {
      forall p | w.fetchLimit.Some? && w.fetchLimit.value > 0 ensures |SlotHolders(s', p)| <= w.fetchLimit.value {
        if p == a.process && HasSlot(s'.pc[a]) && !HasSlot(s.pc[a]) {
          SlotsGainOnlyFree(w, s, a, s'.fs, s'.pc[a]);
          assert SlotHolders(s', p) == SlotHolders(s, p) + {a};
        } else {
          assert SlotHolders(s', p) <= SlotHolders(s, p);
          SubsetCount(SlotHolders(s', p), SlotHolders(s, p));
        }
      }
    } else {
      assert forall p :: SlotHolders(s', p) == SlotHolders(s, p);
    }
  }

  lemma NobodyHoldsASlot(s: State)
    requires forall a | a in s.pc :: s.pc[a].Idle?
    ensures forall p :: SlotHolders(s, p) == {}
  {
  }

  lemma RunStep(w: World, run: seq<State>, i: nat)
    requires IsRun(w, run) && i + 1 < |run|
    ensures Step(w, run[i], run[i + 1])
  {
  }

  lemma {:induction false} RunKeepsSlots(w: World, run: seq<State>, i: nat)
    requires IsRun(w, run) && i < |run|
    ensures WithinSlots(w, run[i])
  {
    if i == 0 {
      NobodyHoldsASlot(run[0]);
    } else {
      RunKeepsSlots(w, run, i - 1);
      RunStep(w, run, i - 1);
      StepKeepsSlots(w, run[i - 1], run[i]);
    }
  }

  /** With a positive fetch limit no process ever fetches more clones at once than it allows, cached
      and uncached ones together. */
  lemma FetchesAreLimited(w: World, run: seq<State>, i: nat, process: nat)
    requires IsRun(w, run) && i < |run| && w.fetchLimit.Some? && w.fetchLimit.value > 0
    ensures |Fetching(run[i], process)| <= w.fetchLimit.value
  {
    RunKeepsSlots(w, run, i);
    assert Fetching(run[i], process) <= SlotHolders(run[i], process);
    SubsetCount(Fetching(run[i], process), SlotHolders(run[i], process));
  }
}
