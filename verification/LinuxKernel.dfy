/** The part of the Linux process model the browser guard relies on: a process
    table with parents, zombies, child subreapers and pid reuse, as a step system.

    `birth` numbers processes in the order they were created. It is not visible
    to any program; it is the identity that (pid, start time) stands for. */
module LinuxKernel {

  import opened Common

  datatype Life = Live | Zombie(status: nat)

  /** `kin` marks the guard and every process created, at any remove, by a marked one. */
  datatype Proc = Proc(birth: nat, start: nat, parent: int, life: Life, subreaper: bool, kin: bool)

  /** `used` holds every (pid, start time) ever given out: no pair is given out twice. */
  datatype Kernel = Kernel(procs: map<int, Proc>, born: nat, used: set<(int, nat)>)

  const INIT := 1
  const MAX_PID := 4194304

  predicate Alive(k: Kernel, p: int) {
    p in k.procs && k.procs[p].life.Live?
  }

  /** The process born as number `birth` still exists (zombies included) and holds pid `p`. */
  predicate Holds(k: Kernel, p: int, birth: nat) {
    p in k.procs && k.procs[p].birth == birth
  }

  ghost predicate ProcOk(k: Kernel, p: int)
    requires p in k.procs
  {
    && INIT <= p <= MAX_PID
    && k.procs[p].birth < k.born
    && (p, k.procs[p].start) in k.used
    && (p != INIT ==>
          && Alive(k, k.procs[p].parent)
          && k.procs[k.procs[p].parent].birth < k.procs[p].birth)
  }

  /** Every process but init has a live parent that is older than it. */
  ghost predicate WellFormed(k: Kernel) {
    && Alive(k, INIT)
    && k.procs[INIT].parent == 0
    && forall p {:trigger ProcOk(k, p)} :: p in k.procs ==> ProcOk(k, p)
  }

  /** The guard `g`, started at `gs`: live, and a child subreaper. */
  ghost predicate GuardUp(k: Kernel, g: int, gs: nat) {
    && WellFormed(k)
    && g != INIT
    && Alive(k, g)
    && k.procs[g].start == gs
    && k.procs[g].subreaper
    && k.procs[g].kin
  }

  /** Where the children of `p` go when it exits: the nearest subreaper above it, or init. */
  ghost function Reaper(k: Kernel, p: int): (r: int)
    requires WellFormed(k) && p in k.procs
    ensures Alive(k, r)
    ensures p != INIT ==> k.procs[r].birth < k.procs[p].birth
    decreases k.procs[p].birth
  {
    if p == INIT then INIT
    else
      var q := k.procs[p].parent;
      assert ProcOk(k, p);
      if q == INIT || k.procs[q].subreaper then q else Reaper(k, q)
  }

  /** `sibling` is CLONE_PARENT: the new process gets its creator's own parent. */
  datatype Step =
    | Fork(caller: int, sibling: bool, pid: int, start: nat)
    | Subreap(pid: int, on: bool)
    | Exit(pid: int, status: nat)
    | Reap(pid: int)

  /** The process that takes the step. */
  function Actor(k: Kernel, s: Step): int {
    match s
    case Fork(caller, _, _, _) => caller
    case Subreap(p, _) => p
    case Exit(p, _) => p
    case Reap(p) => if p in k.procs then k.procs[p].parent else 0
  }

  predicate Enabled(k: Kernel, s: Step) {
    match s
    case Fork(caller, sibling, pid, start) =>
      && Alive(k, caller)
      && (sibling ==> caller != INIT)
      && INIT < pid <= MAX_PID
      && pid !in k.procs
      && (pid, start) !in k.used
    case Subreap(p, _) => Alive(k, p)
    case Exit(p, _) => p != INIT && Alive(k, p)
    case Reap(p) => p != INIT && p in k.procs && k.procs[p].life.Zombie?
  }

  /** What happens to process `q` when `p` exits: it becomes a zombie, or a child of
      the nearest subreaper if it was p's child. */
  ghost function AfterExit(k: Kernel, p: int, status: nat, q: int): Proc
    requires WellFormed(k) && p in k.procs && q in k.procs
  {
    if q == p then k.procs[q].(life := Zombie(status))
    else if q != INIT && k.procs[q].parent == p then k.procs[q].(parent := Reaper(k, p))
    else k.procs[q]
  }

  function Forked(k: Kernel, caller: int, sibling: bool, pid: int, start: nat): Kernel
    requires caller in k.procs
  {
    var parent := if sibling then k.procs[caller].parent else caller;
    Kernel(k.procs[pid := Proc(k.born, start, parent, Live, false, k.procs[caller].kin)], k.born + 1,
           k.used + {(pid, start)})
  }

  ghost predicate Effect(k: Kernel, s: Step, k': Kernel)
    requires WellFormed(k) && Enabled(k, s)
  {
    match s
    case Fork(caller, sibling, pid, start) => k' == Forked(k, caller, sibling, pid, start)
    case Subreap(p, on) => k' == k.(procs := k.procs[p := k.procs[p].(subreaper := on)])
    case Exit(p, status) =>
      && k'.born == k.born && k'.used == k.used
      && k'.procs.Keys == k.procs.Keys
      && forall q :: q in k.procs ==> k'.procs[q] == AfterExit(k, p, status, q)
    case Reap(p) => k' == k.(procs := k.procs - {p})
  }

  /** A step of any process but the guard. */
  ghost predicate OtherStep(k: Kernel, k': Kernel, g: int) {
    WellFormed(k) && exists s :: Enabled(k, s) && Actor(k, s) != g && Effect(k, s, k')
  }

  /** What the guard itself does to the table: start the browser, and reap its own children. */
  ghost predicate OwnStep(k: Kernel, k': Kernel, g: int) {
    && WellFormed(k)
    && exists s :: Enabled(k, s) && Actor(k, s) == g && (s.Reap? || (s.Fork? && !s.sibling)) && Effect(k, s, k')
  }

  ghost predicate Next(k: Kernel, k': Kernel, g: int) {
    OtherStep(k, k', g) || OwnStep(k, k', g)
  }

  /** A run under guard `g`: every interleaving of every process's steps. */
  ghost predicate Run(run: seq<Kernel>, g: int, gs: nat) {
    && |run| > 0
    && GuardUp(run[0], g, gs)
    && (forall p :: p in run[0].procs && run[0].procs[p].kin ==> p == g)
    && forall i :: 0 <= i < |run| - 1 ==> Next(run[i], run[i + 1], g)
  }

  /** `p` is the guard or descends from it. */
  ghost predicate Under(k: Kernel, p: int, g: int)
    requires WellFormed(k)
    decreases if p in k.procs then k.procs[p].birth else 0
  {
    p in k.procs && (p == g || (p != INIT && assert ProcOk(k, p); Under(k, k.procs[p].parent, g)))
  }

  ghost predicate Descendant(k: Kernel, p: int, g: int)
    requires WellFormed(k)
  {
    p != g && Under(k, p, g)
  }

  // --- One step ---------------------------------------------------------------

  lemma StepWellFormed(k: Kernel, s: Step, k': Kernel)
    requires WellFormed(k) && Enabled(k, s) && Effect(k, s, k')
    ensures WellFormed(k')
  {
    forall p | p in k'.procs
      ensures ProcOk(k', p)
    {
      if p in k.procs {
        assert ProcOk(k, p);
        if p != INIT { assert ProcOk(k, k.procs[p].parent); }
      } else {
        assert ProcOk(k, s.caller);
      }
    }
  }

  lemma NextKeepsGuard(k: Kernel, k': Kernel, g: int, gs: nat)
    requires GuardUp(k, g, gs) && Next(k, k', g)
    ensures GuardUp(k', g, gs) && k.procs[g].birth == k'.procs[g].birth
  {
    var s :| Enabled(k, s) && Effect(k, s, k') && (Actor(k, s) != g || s.Reap? || (s.Fork? && !s.sibling));
    StepWellFormed(k, s, k');
  }

  /** A pid only ever passes to a younger process with an unused start time. */
  lemma NextPid(k: Kernel, k': Kernel, g: int, p: int)
    requires WellFormed(k) && Next(k, k', g)
    ensures WellFormed(k') && k.born <= k'.born && k.used <= k'.used
    ensures p in k'.procs ==>
      if p in k.procs
      then k'.procs[p].birth == k.procs[p].birth && k'.procs[p].start == k.procs[p].start
      else k'.procs[p].birth == k.born && (p, k'.procs[p].start) !in k.used
  {
    var s :| Enabled(k, s) && Effect(k, s, k');
    StepWellFormed(k, s, k');
  }

  ghost function ParentBirth(k: Kernel, p: int): nat
    requires WellFormed(k) && p in k.procs && p != INIT
  {
    assert ProcOk(k, p);
    k.procs[k.procs[p].parent].birth
  }

  /** What one step does to the parent of an existing process. */
  lemma NextParentLink(k: Kernel, k': Kernel, g: int, p: int) returns (s: Step)
    requires WellFormed(k) && Next(k, k', g) && WellFormed(k')
    requires p in k.procs && p in k'.procs && p != INIT
    ensures Enabled(k, s) && Effect(k, s, k')
    ensures s.Exit? && s.pid == k.procs[p].parent ==> k'.procs[p].parent == Reaper(k, s.pid)
    ensures !(s.Exit? && s.pid == k.procs[p].parent) ==>
      k'.procs[p].parent == k.procs[p].parent && ParentBirth(k', p) == ParentBirth(k, p)
  {
    s :| Enabled(k, s) && Effect(k, s, k');
    assert ProcOk(k, p);
    assert ProcOk(k', p);
  }

  /** A process keeps its parent, or gets an older one. */
  lemma NextParent(k: Kernel, k': Kernel, g: int, p: int)
    requires WellFormed(k) && Next(k, k', g) && WellFormed(k')
    requires p in k.procs && p in k'.procs && p != INIT
    ensures
      || (k'.procs[p].parent == k.procs[p].parent && ParentBirth(k', p) == ParentBirth(k, p))
      || ParentBirth(k', p) < ParentBirth(k, p)
  {
    var s := NextParentLink(k, k', g, p);
    if s.Exit? && s.pid == k.procs[p].parent {
      NextPid(k, k', g, Reaper(k, s.pid));
      assert ProcOk(k, p);
      assert ProcOk(k', p);
    }
  }

  /** Orphans of the guard's subtree stay in it: the guard is a subreaper above them. */
  lemma {:induction false} ReaperUnder(k: Kernel, p: int, g: int, gs: nat)
    requires GuardUp(k, g, gs) && Descendant(k, p, g)
    ensures Under(k, Reaper(k, p), g)
    decreases k.procs[p].birth
  {
    assert ProcOk(k, p);
    var q := k.procs[p].parent;
    if q != g && q != INIT && !k.procs[q].subreaper {
      ReaperUnder(k, q, g, gs);
    }
  }

  /** No step takes an existing process out of the guard's subtree. */
  lemma {:induction false} NextKeepsUnder(k: Kernel, k': Kernel, g: int, gs: nat, p: int)
    requires GuardUp(k, g, gs) && Next(k, k', g) && WellFormed(k')
    requires Under(k, p, g) && p in k'.procs
    ensures Under(k', p, g)
    decreases k'.procs[p].birth
  {
    if p != g {
      var q := k.procs[p].parent;
      var s := NextParentLink(k, k', g, p);
      assert ProcOk(k', p);
      if s.Exit? && s.pid == q {
        NextKeepsGuard(k, k', g, gs);
        if q != g { ReaperUnder(k, q, g, gs); }
      }
      NextKeepsUnder(k, k', g, gs, k'.procs[p].parent);
    }
  }

  // --- Whole runs -------------------------------------------------------------

  lemma RunKeepsGuard(run: seq<Kernel>, g: int, gs: nat, i: nat)
    requires Run(run, g, gs) && i < |run|
    ensures GuardUp(run[i], g, gs)
  {
    if i > 0 {
      RunKeepsGuard(run, g, gs, i - 1);
      NextKeepsGuard(run[i - 1], run[i], g, gs);
    }
  }

  lemma RunPush(run: seq<Kernel>, g: int, gs: nat, k: Kernel)
    requires Run(run, g, gs) && Next(run[|run| - 1], k, g)
    ensures Run(run + [k], g, gs)
  {
    var longer := run + [k];
    forall i | 0 <= i < |longer| - 1
      ensures Next(longer[i], longer[i + 1], g)
    {
      if i < |run| - 1 { assert Next(run[i], run[i + 1], g); }
    }
  }

  /** (pid, start time) names process `birth` at most: the pair is spent, and
      whoever shows it is that process. */
  ghost predicate Named(k: Kernel, p: int, start: nat, birth: nat) {
    && birth < k.born
    && (p, start) in k.used
    && (p in k.procs ==> (k.procs[p].start == start <==> k.procs[p].birth == birth))
  }

  lemma {:induction false} NameOverTime(run: seq<Kernel>, g: int, gs: nat, i: nat, j: nat, p: int, start: nat,
                                        birth: nat)
    requires Run(run, g, gs) && i <= j < |run| && Named(run[i], p, start, birth)
    ensures Named(run[j], p, start, birth)
    ensures Holds(run[j], p, birth) ==> Holds(run[i], p, birth)
    ensures p in run[i].procs && p in run[j].procs ==> run[i].procs[p].birth <= run[j].procs[p].birth
    decreases j - i
  {
    RunKeepsGuard(run, g, gs, i);
    if i < j {
      NextPid(run[i], run[i + 1], g, p);
      NameOverTime(run, g, gs, i + 1, j, p, start, birth);
      if p in run[i].procs && p !in run[i + 1].procs && p in run[j].procs {
        BirthOverTime(run, g, gs, i + 1, j, p);
        assert ProcOk(run[i], p);
      }
    }
  }

  /** A pid found taken later on went to a process born later, or was taken all along. */
  lemma {:induction false} BirthOverTime(run: seq<Kernel>, g: int, gs: nat, i: nat, j: nat, p: int)
    requires Run(run, g, gs) && i <= j < |run|
    requires p !in run[i].procs && p in run[j].procs
    ensures run[i].born <= run[j].procs[p].birth
    decreases j - i
  {
    RunKeepsGuard(run, g, gs, j - 1);
    NextPid(run[j - 1], run[j], g, p);
    BornOverTime(run, g, gs, i, j - 1);
    if p in run[j - 1].procs {
      BirthOverTime(run, g, gs, i, j - 1, p);
    }
  }

  lemma {:induction false} BornOverTime(run: seq<Kernel>, g: int, gs: nat, i: nat, j: nat)
    requires Run(run, g, gs) && i <= j < |run|
    ensures run[i].born <= run[j].born
    decreases j - i
  {
    if i < j {
      RunKeepsGuard(run, g, gs, i);
      NextPid(run[i], run[i + 1], g, INIT);
      BornOverTime(run, g, gs, i + 1, j);
    }
  }

  lemma NamedNow(run: seq<Kernel>, g: int, gs: nat, i: nat, p: int)
    requires Run(run, g, gs) && i < |run| && p in run[i].procs
    ensures Named(run[i], p, run[i].procs[p].start, run[i].procs[p].birth)
  {
    RunKeepsGuard(run, g, gs, i);
    assert ProcOk(run[i], p);
  }

  /** A process seen twice under one (pid, start time) existed all the time between. */
  lemma SameProcessBetween(run: seq<Kernel>, g: int, gs: nat, a: nat, t: nat, b: nat, p: int)
    requires Run(run, g, gs) && a <= t <= b < |run|
    requires p in run[a].procs && p in run[b].procs && run[a].procs[p].start == run[b].procs[p].start
    ensures Holds(run[t], p, run[a].procs[p].birth) && run[t].procs[p].start == run[a].procs[p].start
    ensures run[b].procs[p].birth == run[a].procs[p].birth
  {
    var start, birth := run[a].procs[p].start, run[a].procs[p].birth;
    NamedNow(run, g, gs, a, p);
    NameOverTime(run, g, gs, a, t, p, start, birth);
    NameOverTime(run, g, gs, t, b, p, start, birth);
  }

  /** The same, for a process known by its birth. */
  lemma ExistsBetween(run: seq<Kernel>, g: int, gs: nat, a: nat, t: nat, b: nat, p: int)
    requires Run(run, g, gs) && a <= t <= b < |run|
    requires p in run[a].procs && Holds(run[b], p, run[a].procs[p].birth)
    ensures Holds(run[t], p, run[a].procs[p].birth)
  {
    NamedNow(run, g, gs, a, p);
    NameOverTime(run, g, gs, a, b, p, run[a].procs[p].start, run[a].procs[p].birth);
    SameProcessBetween(run, g, gs, a, t, b, p);
  }

  /** While a process exists, its parents only get older. */
  lemma {:induction false} ParentOverTime(run: seq<Kernel>, g: int, gs: nat, a: nat, b: nat, p: int)
    requires Run(run, g, gs) && a <= b < |run| && p != INIT
    requires p in run[a].procs && Holds(run[b], p, run[a].procs[p].birth)
    ensures WellFormed(run[a]) && WellFormed(run[b])
    ensures
      || (run[b].procs[p].parent == run[a].procs[p].parent && ParentBirth(run[b], p) == ParentBirth(run[a], p))
      || ParentBirth(run[b], p) < ParentBirth(run[a], p)
    decreases b - a
  {
    RunKeepsGuard(run, g, gs, a);
    RunKeepsGuard(run, g, gs, b);
    if a < b {
      ExistsBetween(run, g, gs, a, b - 1, b, p);
      ParentOverTime(run, g, gs, a, b - 1, p);
      assert Next(run[b - 1], run[b - 1 + 1], g);
      NextParent(run[b - 1], run[b], g, p);
    }
  }

  datatype Link = Link(start: nat, parent: int)

  /** What one read of /proc/<pid>/stat shows. */
  function StatOf(k: Kernel, p: int): Option<Link> {
    if p in k.procs then Some(Link(k.procs[p].start, k.procs[p].parent)) else None
  }

  /** A link that reads the same twice held at every instant between the two
      reads: parents never come back, not even as a reused pid. */
  lemma StableLink(run: seq<Kernel>, g: int, gs: nat, a: nat, t: nat, b: nat, p: int)
    requires Run(run, g, gs) && a <= t <= b < |run| && p != INIT
    requires StatOf(run[a], p).Some? && StatOf(run[a], p) == StatOf(run[b], p)
    ensures StatOf(run[t], p) == StatOf(run[a], p)
  {
    SameProcessBetween(run, g, gs, a, t, b, p);
    ParentOverTime(run, g, gs, a, t, p);
    ParentOverTime(run, g, gs, t, b, p);
    var q := run[a].procs[p].parent;
    assert ProcOk(run[a], p) && ProcOk(run[b], p);
    if run[t].procs[p].parent != q {
      NamedNow(run, g, gs, a, q);
      NameOverTime(run, g, gs, a, b, q, run[a].procs[q].start, run[a].procs[q].birth);
      assert false;
    }
  }

  /** Once under the guard, under the guard for as long as it exists. */
  lemma {:induction false} OnceUnderAlwaysUnder(run: seq<Kernel>, g: int, gs: nat, i: nat, j: nat, p: int)
    requires Run(run, g, gs) && i <= j < |run|
    requires GuardUp(run[i], g, gs) && Under(run[i], p, g) && Holds(run[j], p, run[i].procs[p].birth)
    ensures GuardUp(run[j], g, gs) && Under(run[j], p, g)
    decreases j - i
  {
    if i < j {
      NextKeepsGuard(run[i], run[i + 1], g, gs);
      ExistsBetween(run, g, gs, i, i + 1, j, p);
      NextKeepsUnder(run[i], run[i + 1], g, gs, p);
      OnceUnderAlwaysUnder(run, g, gs, i + 1, j, p);
    }
  }

  /** Every process ever born under the guard stays under it while it exists. */
  lemma {:induction false} KinStayUnder(run: seq<Kernel>, g: int, gs: nat, i: nat, p: int)
    requires Run(run, g, gs) && i < |run| && p in run[i].procs && run[i].procs[p].kin
    ensures GuardUp(run[i], g, gs) && Under(run[i], p, g)
  {
    RunKeepsGuard(run, g, gs, i);
    if i > 0 && p != g {
      RunKeepsGuard(run, g, gs, i - 1);
      var k, k' := run[i - 1], run[i];
      assert Next(k, run[i - 1 + 1], g);
      if p in k.procs {
        assert k.procs[p].kin by { KinUnchanged(k, k', g, p); }
        KinStayUnder(run, g, gs, i - 1, p);
        NextKeepsUnder(k, k', g, gs, p);
      } else {
        var caller := Creator(k, k', g, p);
        KinStayUnder(run, g, gs, i - 1, caller);
        NextKeepsUnder(k, k', g, gs, caller);
        assert ProcOk(k', p);
        if k'.procs[p].parent != caller {
          assert ProcOk(k', caller);
        }
      }
    }
  }

  /** A new process hangs below its creator, or beside it (never beside the guard). */
  lemma Creator(k: Kernel, k': Kernel, g: int, p: int) returns (caller: int)
    requires WellFormed(k) && Next(k, k', g) && p !in k.procs && p in k'.procs
    ensures caller in k.procs && caller in k'.procs && k'.procs[p].kin == k.procs[caller].kin
    ensures k'.procs[caller] == k.procs[caller]
    ensures p != INIT && caller != p
    ensures k'.procs[p].parent == caller
      || (caller != g && caller != INIT && k'.procs[p].parent == k.procs[caller].parent)
  {
    if OtherStep(k, k', g) {
      var s :| Enabled(k, s) && Actor(k, s) != g && Effect(k, s, k');
      caller := s.caller;
    } else {
      var s :| Enabled(k, s) && Actor(k, s) == g && (s.Reap? || (s.Fork? && !s.sibling)) && Effect(k, s, k');
      caller := s.caller;
    }
  }

  lemma KinUnchanged(k: Kernel, k': Kernel, g: int, p: int)
    requires WellFormed(k) && Next(k, k', g) && p in k.procs && p in k'.procs
    ensures k'.procs[p].kin == k.procs[p].kin
  {
    var s :| Enabled(k, s) && Effect(k, s, k');
  }

  /** A process that is gone never comes back. */
  lemma {:induction false} GoneStaysGone(run: seq<Kernel>, g: int, gs: nat, i: nat, j: nat, p: int, birth: nat)
    requires Run(run, g, gs) && i <= j < |run| && birth < run[i].born && !Holds(run[i], p, birth)
    ensures birth < run[j].born && !Holds(run[j], p, birth)
    decreases j - i
  {
    if i < j {
      RunKeepsGuard(run, g, gs, i);
      NextPid(run[i], run[i + 1], g, p);
      GoneStaysGone(run, g, gs, i + 1, j, p, birth);
    }
  }

  // --- ECHILD -----------------------------------------------------------------

  /** waitpid's ECHILD: the guard has no child, live or zombie. */
  ghost predicate Childless(k: Kernel, g: int) {
    forall p :: p in k.procs && p != INIT ==> k.procs[p].parent != g
  }

  /** With no child there is no descendant at all. */
  lemma {:induction false} ChildlessHasNoDescendant(k: Kernel, g: int, p: int)
    requires WellFormed(k) && Childless(k, g)
    ensures !Descendant(k, p, g)
    decreases if p in k.procs then k.procs[p].birth else 0
  {
    if p in k.procs && p != g && p != INIT {
      assert ProcOk(k, p);
      ChildlessHasNoDescendant(k, g, k.procs[p].parent);
    }
  }

  lemma ChildlessStays(k: Kernel, k': Kernel, g: int, gs: nat)
    requires GuardUp(k, g, gs) && Childless(k, g) && OtherStep(k, k', g)
    ensures Childless(k', g)
  {
    var s :| Enabled(k, s) && Actor(k, s) != g && Effect(k, s, k');
    forall p | p in k'.procs && p != INIT
      ensures k'.procs[p].parent != g
    {
      if s.Exit? && k.procs[p].parent == s.pid && Reaper(k, s.pid) == g {
        ReaperOfStranger(k, s.pid, g);
        ChildlessHasNoDescendant(k, g, s.pid);
      }
    }
  }

  /** Only a descendant's children can be handed to the guard. */
  lemma {:induction false} ReaperOfStranger(k: Kernel, p: int, g: int)
    requires WellFormed(k) && p in k.procs && p != g && g != INIT
    requires Reaper(k, p) == g
    ensures Descendant(k, p, g)
    decreases k.procs[p].birth
  {
    if p != INIT {
      assert ProcOk(k, p);
      var q := k.procs[p].parent;
      if q != g {
        ReaperOfStranger(k, q, g);
      } else {
        assert Under(k, g, g);
      }
    }
  }

  /** From an ECHILD on, while the guard starts nothing, no descendant exists or can appear. */
  lemma {:induction false} EchildIsFinal(run: seq<Kernel>, g: int, gs: nat, i: nat, j: nat, p: int)
    requires Run(run, g, gs) && i <= j < |run|
    requires forall n :: i <= n < |run| - 1 ==> OtherStep(run[n], run[n + 1], g)
    requires Childless(run[i], g)
    ensures GuardUp(run[j], g, gs) && Childless(run[j], g) && !Descendant(run[j], p, g)
    decreases j - i
  {
    RunKeepsGuard(run, g, gs, j);
    if i < j {
      RunKeepsGuard(run, g, gs, j - 1);
      EchildIsFinal(run, g, gs, i, j - 1, p);
      ChildlessStays(run[j - 1], run[j], g, gs);
    }
    ChildlessHasNoDescendant(run[j], g, p);
  }

  /** So ECHILD proves the tree empty for good: every process ever born under the guard is gone. */
  lemma EchildMeansNoKin(run: seq<Kernel>, g: int, gs: nat, i: nat, j: nat, p: int)
    requires Run(run, g, gs) && i <= j < |run|
    requires forall n :: i <= n < |run| - 1 ==> OtherStep(run[n], run[n + 1], g)
    requires Childless(run[i], g)
    ensures p in run[j].procs && run[j].procs[p].kin ==> p == g
  {
    EchildIsFinal(run, g, gs, i, j, p);
    if p in run[j].procs && run[j].procs[p].kin {
      KinStayUnder(run, g, gs, j, p);
    }
  }
}
