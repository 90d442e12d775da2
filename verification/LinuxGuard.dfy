/** The Linux browser guard (guard_main.rs) against an interleaving kernel.

    `System` is the guard's view of the machine. Every system call first lets all
    other processes take any number of steps, then acts at one instant. */
module LinuxGuard {
  import opened Common
  import opened LinuxKernel

  datatype Read<+T> = Ok(value: T) | Fault(error: string)

  /** A pidfd names one process for good, whatever becomes of its pid. The guard
      itself never looks at `birth`; only the kernel does. */
  datatype Pidfd = Pidfd(pid: int, birth: nat)

  datatype Sent = Delivered | NoSuchProcess | Failed(error: string)

  datatype Waited =
    | LiveChildren                     // waitpid returned 0
    | Reaped(pid: int, status: nat)
    | NoChild                          // ECHILD
    | Interrupted                      // EINTR
    | WaitFailed(error: string)

  /** A signal that reached process `birth`, holding `pid` at instant `time` of the run. */
  datatype Delivery = Delivery(time: nat, pid: int, birth: nat, signal: int)

  const MAX_ANCESTRY := 128

  /** From instant `i` to instant `j`, only processes other than the guard took steps. */
  ghost predicate OthersBetween(run: seq<Kernel>, i: nat, j: int, g: int)
    requires j < |run|
  {
    forall n :: i <= n < j ==> OtherStep(run[n], run[n + 1], g)
  }

  ghost predicate Took(k: Kernel, s: Step, k': Kernel) {
    WellFormed(k) && Enabled(k, s) && Effect(k, s, k')
  }

  ghost predicate UnderAt(run: seq<Kernel>, t: nat, p: int, g: int)
    requires t < |run|
  {
    WellFormed(run[t]) && Under(run[t], p, g)
  }

  /** A signal through `fd` can only reach a descendant of the guard: the process
      it names is one, or is gone. */
  ghost predicate Tame(k: Kernel, fd: Pidfd, g: int) {
    && WellFormed(k)
    && fd.birth < k.born
    && (Holds(k, fd.pid, fd.birth) ==> Descendant(k, fd.pid, g))
  }

  lemma TameStays(run: seq<Kernel>, g: int, gs: nat, i: nat, j: nat, fd: Pidfd)
    requires Run(run, g, gs) && i <= j < |run| && Tame(run[i], fd, g)
    ensures Tame(run[j], fd, g)
  {
    RunKeepsGuard(run, g, gs, i);
    RunKeepsGuard(run, g, gs, j);
    BornOverTime(run, g, gs, i, j);
    if Holds(run[j], fd.pid, fd.birth) {
      if !Holds(run[i], fd.pid, fd.birth) {
        GoneStaysGone(run, g, gs, i, j, fd.pid, fd.birth);
      }
      OnceUnderAlwaysUnder(run, g, gs, i, j, fd.pid);
    }
  }

  type Handles = map<int, (nat, Pidfd)>

  /** What the tracker's handles mean. Each is tame, and the process it names (if
      it still exists) has the start time kept beside it. Every handle ever
      retained names a gone process or is still kept. */
  ghost predicate Kept(k: Kernel, handles: Handles, retained: set<Pidfd>, g: int) {
    && (forall p :: p in handles ==> HandleOk(k, p, handles[p].0, handles[p].1, g))
    && (forall fd :: fd in retained ==> KeptOrGone(k, fd, handles))
  }

  ghost predicate HandleOk(k: Kernel, p: int, start: nat, fd: Pidfd, g: int) {
    && fd.pid == p
    && Tame(k, fd, g)
    && (Holds(k, p, fd.birth) ==> k.procs[p].start == start)
  }

  ghost predicate KeptOrGone(k: Kernel, fd: Pidfd, handles: Handles) {
    && fd.birth < k.born
    && (Holds(k, fd.pid, fd.birth) ==> fd.pid in handles && handles[fd.pid].1 == fd)
  }

  lemma KeptStays(run: seq<Kernel>, g: int, gs: nat, i: nat, j: nat, handles: Handles, retained: set<Pidfd>)
    requires Run(run, g, gs) && i <= j < |run| && Kept(run[i], handles, retained, g)
    ensures Kept(run[j], handles, retained, g)
  {
    forall fd: Pidfd | fd.birth < run[i].born
      ensures fd.birth < run[j].born
      ensures Holds(run[j], fd.pid, fd.birth) ==>
        Holds(run[i], fd.pid, fd.birth) && run[j].procs[fd.pid].start == run[i].procs[fd.pid].start
    {
      BornOverTime(run, g, gs, i, j);
      if Holds(run[j], fd.pid, fd.birth) {
        if !Holds(run[i], fd.pid, fd.birth) {
          GoneStaysGone(run, g, gs, i, j, fd.pid, fd.birth);
        }
        NamedNow(run, g, gs, i, fd.pid);
        NameOverTime(run, g, gs, i, j, fd.pid, run[i].procs[fd.pid].start, fd.birth);
      }
    }
    forall p | p in handles
      ensures HandleOk(run[j], p, handles[p].0, handles[p].1, g)
    {
      assert HandleOk(run[i], p, handles[p].0, handles[p].1, g);
      TameStays(run, g, gs, i, j, handles[p].1);
    }
    forall fd | fd in retained
      ensures KeptOrGone(run[j], fd, handles)
    {
      assert KeptOrGone(run[i], fd, handles);
    }
  }

  ghost predicate ShowsAt(run: seq<Kernel>, c: nat, p: int, start: nat)
    requires c < |run|
  {
    p in run[c].procs && run[c].procs[p].start == start
  }

  /** Between instants `b` and `now` the pid showed `start` and later was owned. */
  ghost predicate ShownThenOwned(run: seq<Kernel>, b: nat, now: nat, p: int, start: nat, g: int)
    requires now < |run|
  {
    exists c, t :: b <= c <= t <= now && ShowsAt(run, c, p, start) && UnderAt(run, t, p, g)
  }

  /** Why a new handle is tame. The pid showed `start` at `a`, was opened at `b`,
      showed `start` again later, and after that was owned. If the process opened
      still exists at `now`, it was the owned one. */
  lemma NewHandleIsTame(run: seq<Kernel>, g: int, gs: nat, a: nat, b: nat, now: nat, start: nat, fd: Pidfd)
    requires Run(run, g, gs) && a <= b <= now < |run| && fd.pid != g
    requires ShowsAt(run, a, fd.pid, start)
    requires Holds(run[b], fd.pid, fd.birth)
    requires ShownThenOwned(run, b, now, fd.pid, start, g)
    ensures HandleOk(run[now], fd.pid, start, fd, g)
  {
    var c, t :| b <= c <= t <= now && ShowsAt(run, c, fd.pid, start) && UnderAt(run, t, fd.pid, g);
    RunKeepsGuard(run, g, gs, now);
    RunKeepsGuard(run, g, gs, t);
    RunKeepsGuard(run, g, gs, a);
    SameProcessBetween(run, g, gs, a, b, c, fd.pid);
    assert ProcOk(run[a], fd.pid);
    BornOverTime(run, g, gs, a, now);
    if Holds(run[now], fd.pid, fd.birth) {
      ExistsBetween(run, g, gs, a, t, now, fd.pid);
      OnceUnderAlwaysUnder(run, g, gs, t, now, fd.pid);
      NamedNow(run, g, gs, a, fd.pid);
      NameOverTime(run, g, gs, a, now, fd.pid, start, fd.birth);
    }
  }

  /** Every delivered signal went to a process that then descended from the guard. */
  ghost predicate OnlyDescendantsSignalled(run: seq<Kernel>, delivered: seq<Delivery>, g: int) {
    forall d :: d in delivered ==> DeliveredToDescendant(run, d, g)
  }

  ghost predicate DeliveredToDescendant(run: seq<Kernel>, d: Delivery, g: int) {
    && d.time < |run|
    && Holds(run[d.time], d.pid, d.birth)
    && WellFormed(run[d.time])
    && Descendant(run[d.time], d.pid, g)
  }

  function ChildrenOf(k: Kernel, pid: int): set<int> {
    set p | p in k.procs && p != INIT && k.procs[p].parent == pid
  }

  class System {
    var k: Kernel
    ghost var run: seq<Kernel>
    ghost var delivered: seq<Delivery>
    /** How many more times this run lets the guard wait: any number. */
    var fuel: nat
    var clock: nat
    /** How many system calls failed, and how many waits saw a stop request. */
    ghost var faults: nat
    ghost var stops: nat
    const me: int
    const meStart: nat

    ghost predicate Valid()
      reads this
    {
      && Run(run, me, meStart)
      && k == run[|run| - 1]
      && GuardUp(k, me, meStart)
    }

    ghost function Now(): nat
      reads this
      requires Valid()
    {
      |run| - 1
    }

    /** The run went on; since the old state only other processes acted. */
    twostate predicate Quiet()
      reads this
    {
      && Valid()
      && old(run) <= run
      && |old(run)| > 0
      && OthersBetween(run, |old(run)| - 1, |run| - 1, me)
      && old(faults) <= faults
    }

    /** Any number of steps of the other processes. Every such run is allowed by
        the contract; the body is the one in which nothing happens. */
    method Others()
      requires Valid()
      modifies this`k, this`run
      ensures Quiet()
    {
    }

    /** One read of /proc/<pid>/stat. */
    method Stat(pid: int) returns (r: Read<Option<Link>>)
      requires Valid()
      modifies this`k, this`run, this`faults
      ensures Quiet()
      ensures r.Ok? ==> r.value == StatOf(k, pid)
      ensures faults == old(faults) + if r.Fault? then 1 else 0
    {
      Others();
      if * {
        var error: string := *;
        r, faults := Fault(error), faults + 1;
      } else {
        r := Ok(StatOf(k, pid));
      }
    }

    method PidfdOpen(pid: int) returns (r: Read<Option<Pidfd>>)
      requires Valid()
      modifies this`k, this`run, this`faults
      ensures Quiet()
      ensures r.Ok? && r.value.Some? ==> r.value.value.pid == pid && Holds(k, pid, r.value.value.birth)
      ensures r.Ok? && r.value.None? ==> pid !in k.procs
      ensures faults == old(faults) + if r.Fault? then 1 else 0
    {
      Others();
      if * {
        var error: string := *;
        r, faults := Fault(error), faults + 1;
      } else {
        r := Ok(if pid in k.procs then Some(Pidfd(pid, k.procs[pid].birth)) else None);
      }
    }

    /** The children of `pid`, over all its threads' `children` lists. */
    method Children(pid: int) returns (r: Read<set<int>>)
      requires Valid()
      modifies this`k, this`run, this`faults
      ensures Quiet()
      ensures r.Ok? ==> r.value == ChildrenOf(k, pid)
      ensures faults == old(faults) + if r.Fault? then 1 else 0
    {
      Others();
      if * {
        var error: string := *;
        r, faults := Fault(error), faults + 1;
      } else {
        r := Ok(ChildrenOf(k, pid));
      }
    }

    ghost predicate LogGrows(was: seq<Delivery>, sent: Sent, d: Delivery)
      reads this
    {
      delivered == if sent.Delivered? then was + [d] else was
    }

    /** pidfd_send_signal: reaches the process the pidfd names, or nothing. */
    method Signal(fd: Pidfd, signal: int) returns (r: Sent)
      requires Valid()
      modifies this`k, this`run, this`faults, this`delivered
      ensures Quiet()
      ensures r.Delivered? ==> Holds(k, fd.pid, fd.birth)
      ensures r.NoSuchProcess? ==> !Holds(k, fd.pid, fd.birth)
      ensures LogGrows(old(delivered), r, Delivery(Now(), fd.pid, fd.birth, signal))
      ensures faults == old(faults) + if r.Failed? then 1 else 0
    {
      Others();
      if !Holds(k, fd.pid, fd.birth) {
        r := NoSuchProcess;
      } else if * {
        var error: string := *;
        r, faults := Failed(error), faults + 1;
      } else {
        r := Delivered;
        delivered := delivered + [Delivery(Now(), fd.pid, fd.birth, signal)];
      }
    }

    /** kill by pid: reaches whatever process holds the pid at that instant. */
    method Kill(pid: int, signal: int) returns (r: Sent)
      requires Valid()
      modifies this`k, this`run, this`faults, this`delivered
      ensures Quiet()
      ensures r.Delivered? ==> pid in k.procs
      ensures r.NoSuchProcess? ==> pid !in k.procs
      ensures LogGrows(old(delivered), r,
                       Delivery(Now(), pid, if pid in k.procs then k.procs[pid].birth else 0, signal))
      ensures faults == old(faults) + if r.Failed? then 1 else 0
    {
      Others();
      if pid !in k.procs {
        r := NoSuchProcess;
      } else if * {
        var error: string := *;
        r, faults := Failed(error), faults + 1;
      } else {
        r := Delivered;
        delivered := delivered + [Delivery(Now(), pid, k.procs[pid].birth, signal)];
      }
    }

    /** Other processes' steps, and then the guard's own step `s`. */
    twostate predicate Stepped(s: Step)
      reads this
    {
      && Valid()
      && old(run) <= run
      && 0 < |old(run)| < |run|
      && OthersBetween(run, |old(run)| - 1, |run| - 2, me)
      && Took(run[|run| - 2], s, k)
    }

    method Step(s: Step)
      requires Valid() && Enabled(k, s) && Actor(k, s) == me && (s.Reap? || (s.Fork? && !s.sibling))
      modifies this`k, this`run
      ensures Stepped(s)
      ensures run == old(run) + [k]
    {
      ghost var before := k;
      if s.Fork? {
        k := Forked(k, s.caller, s.sibling, s.pid, s.start);
      } else {
        k := k.(procs := k.procs - {s.pid});
      }
      assert OwnStep(before, k, me) by { assert Effect(before, s, k); }
      NextKeepsGuard(before, k, me, meStart);
      RunPush(run, me, meStart, k);
      run := run + [k];
    }

    /** waitpid(-1, WNOHANG | __WALL): reaps one exited child, if there is one. */
    method WaitPid() returns (r: Waited)
      requires Valid() && fuel > 0
      modifies this`k, this`run, this`faults, this`fuel
      ensures fuel == old(fuel) - 1
      ensures !r.Reaped? ==> Quiet()
      ensures r.Reaped? ==> Stepped(Reap(r.pid)) && run[|run| - 2].procs[r.pid].life == Zombie(r.status)
      ensures r.LiveChildren? ==> !Childless(k, me)
      ensures r.NoChild? ==> Childless(k, me)
      ensures faults == old(faults) + if r.WaitFailed? then 1 else 0
    {
      fuel := fuel - 1;
      Others();
      if * {
        r := Interrupted;
      } else if * {
        var error: string := *;
        r, faults := WaitFailed(error), faults + 1;
      } else {
        var children := ChildrenOf(k, me);
        var ended := set p | p in children && k.procs[p].life.Zombie?;
        if ended != {} {
          NonEmpty(ended);
          var p :| p in ended;
          r := Waited.Reaped(p, k.procs[p].life.status);
          Step(Reap(p));
        } else if children != {} {
          NonEmpty(children);
          r := LiveChildren;
        } else {
          assert Childless(k, me) by {
            forall p | p in k.procs && p != INIT ensures k.procs[p].parent != me {
              assert p !in children;
            }
          }
          r := NoChild;
        }
      }
    }

    /** fork and exec of the browser. A failure starts nothing. */
    method Spawn() returns (r: Read<int>)
      requires Valid()
      modifies this`k, this`run, this`faults
      ensures r.Fault? ==> Quiet()
      ensures r.Ok? ==> exists start :: Stepped(Fork(me, false, r.value, start))
      ensures faults == old(faults) + if r.Fault? then 1 else 0
    {
      Others();
      var pid: int := *;
      var start: nat := *;
      var fork := Fork(me, false, pid, start);
      if Enabled(k, fork) {
        Step(fork);
        r := Ok(pid);
      } else {
        var error: string := *;
        r, faults := Fault(error), faults + 1;
      }
    }

    method Time() returns (now: nat)
      requires Valid()
      modifies this`k, this`run, this`clock
      ensures Quiet() && now == clock >= old(clock)
    {
      Others();
      var passed: int := *;
      if passed > 0 { clock := clock + passed; }
      now := clock;
    }

    /** A signalfd wait of at most `limit`: whether a stop was requested. */
    method Wait(limit: nat) returns (r: Read<bool>)
      requires Valid()
      modifies this`k, this`run, this`faults, this`stops, this`clock
      ensures Quiet() && clock >= old(clock)
      ensures faults == old(faults) + if r.Fault? then 1 else 0
      ensures stops == old(stops) + if r == Ok(true) then 1 else 0
    {
      Others();
      var passed: int := *;
      if passed > 0 { clock := clock + passed; }
      if * {
        var error: string := *;
        r, faults := Fault(error), faults + 1;
      } else {
        var stop: bool := *;
        r := Ok(stop);
        if stop { stops := stops + 1; }
      }
    }

    /** Signal 0 through a pidfd: only ESRCH means gone. */
    method Exists(fd: Pidfd) returns (r: bool)
      requires Valid()
      modifies this`k, this`run
      ensures Quiet()
      ensures r == Holds(k, fd.pid, fd.birth)
    {
      Others();
      r := Holds(k, fd.pid, fd.birth);
    }
  }

  /** How many processes are on the way from `p` up to the guard, both included. */
  ghost function Depth(k: Kernel, p: int, g: int): nat
    requires WellFormed(k) && Under(k, p, g)
    decreases k.procs[p].birth
  {
    if p == g then 1 else assert ProcOk(k, p); 1 + Depth(k, k.procs[p].parent, g)
  }

  /** A chain of parent links from `pid`, whose next link is `next`. */
  ghost predicate ChainFrom(chain: seq<(int, Link)>, pid: int, next: int) {
    && (|chain| == 0 ==> next == pid)
    && (|chain| > 0 ==> chain[0].0 == pid && chain[|chain| - 1].1.parent == next)
    && (forall i :: 0 <= i < |chain| ==> chain[i].0 != INIT)
    && (forall i :: 0 <= i < |chain| - 1 ==> chain[i].1.parent == chain[i + 1].0)
  }

  /** A whole chain from `pid` to the guard. */
  ghost predicate Chain(chain: seq<(int, Link)>, pid: int, g: int) {
    |chain| > 0 && chain[|chain| - 1].0 == g && ChainFrom(chain, pid, chain[|chain| - 1].1.parent)
  }

  /** The walk in a table that stands still: it follows the line of descent. */
  ghost predicate Walking(k: Kernel, pid: int, current: int, chain: seq<(int, Link)>, g: int)
    requires WellFormed(k)
  {
    && (Under(k, pid, g) ==> Under(k, current, g) && Depth(k, pid, g) == |chain| + Depth(k, current, g))
    && (forall i :: 0 <= i < |chain| ==>
          chain[i].0 in k.procs && (current in k.procs ==> k.procs[current].birth < k.procs[chain[i].0].birth))
  }

  /** A chain whose links all hold at once is a line of descent. */
  lemma {:induction false} ChainMeansUnder(k: Kernel, chain: seq<(int, Link)>, g: int, i: nat)
    requires WellFormed(k) && i < |chain| && Chain(chain, chain[0].0, g)
    requires forall j :: 0 <= j < |chain| ==> StatOf(k, chain[j].0) == Some(chain[j].1)
    ensures Under(k, chain[i].0, g)
    decreases |chain| - i
  {
    if i < |chain| - 1 {
      ChainMeansUnder(k, chain, g, i + 1);
      assert ProcOk(k, chain[i].0);
    }
  }

  /** A walk that meets init, or a process it has passed, is not on a line of descent. */
  lemma {:induction false} WalkEnds(k: Kernel, pid: int, current: int, chain: seq<(int, Link)>, g: int)
    requires WellFormed(k) && g != INIT && current != g && current in k.procs
    requires
      || k.procs[current].parent <= 1
      || exists i :: 0 <= i < |chain| && chain[i].0 == k.procs[current].parent
    ensures Walking(k, pid, current, chain, g) ==> !Under(k, pid, g)
  {
    assert !Under(k, INIT, g);
    assert ProcOk(k, current);
    if current != INIT { assert ProcOk(k, k.procs[current].parent); }
  }

  /** Link `i` of the chain was read at instant `at[i]`, between `s` and `t`. */
  ghost predicate ReadAt(run: seq<Kernel>, chain: seq<(int, Link)>, at: seq<nat>, s: nat, t: nat) {
    && |at| == |chain|
    && t < |run|
    && forall i :: 0 <= i < |chain| ==> s <= at[i] <= t && StatOf(run[at[i]], chain[i].0) == Some(chain[i].1)
  }

  /** One more link, read at the last instant of a longer run. */
  lemma Climb(run: seq<Kernel>, later: seq<Kernel>, chain: seq<(int, Link)>, at: seq<nat>, s: nat,
              pid: int, current: int, link: Link)
    requires |run| > 0 && s < |run| && run <= later
    requires ReadAt(run, chain, at, s, |run| - 1) && ChainFrom(chain, pid, current)
    requires current != INIT && StatOf(later[|later| - 1], current) == Some(link)
    ensures ReadAt(later, chain + [(current, link)], at + [|later| - 1], s, |later| - 1)
    ensures ChainFrom(chain + [(current, link)], pid, link.parent)
  {
    forall i | 0 <= i < |chain|
      ensures s <= at[i] <= |later| - 1 && StatOf(later[at[i]], chain[i].0) == Some(chain[i].1)
    {
      assert later[at[i]] == run[at[i]];
    }
  }

  lemma WalkOn(k: Kernel, pid: int, current: int, chain: seq<(int, Link)>, link: Link, g: int)
    requires WellFormed(k) && Walking(k, pid, current, chain, g)
    requires StatOf(k, current) == Some(link) && current != INIT && current != g
    ensures Walking(k, pid, link.parent, chain + [(current, link)], g)
  {
    assert ProcOk(k, current);
  }

  /** The second half of `is_owned`: every link, from the owner downward, must
      read as it did on the way up. Then all of them held at instant `t`. */
  method Recheck(sys: System, chain: seq<(int, Link)>, ghost at: seq<nat>, ghost s: nat, ghost t: nat)
    returns (r: Read<bool>)
    requires sys.Valid()
    requires ReadAt(sys.run, chain, at, s, t)
    requires forall i :: 0 <= i < |chain| ==> chain[i].0 != INIT
    modifies sys`k, sys`run, sys`faults
    ensures sys.Quiet()
    ensures r.Ok? <==> sys.faults == old(sys.faults)
    ensures r == Ok(true) ==> forall j :: 0 <= j < |chain| ==> StatOf(sys.run[t], chain[j].0) == Some(chain[j].1)
    ensures r == Ok(false) && |sys.run| == old(|sys.run|) ==>
      exists j :: 0 <= j < |chain| && StatOf(sys.k, chain[j].0) != Some(chain[j].1)
  {
    var i := |chain|;
    while i > 0
      invariant 0 <= i <= |chain|
      invariant sys.Quiet()
      invariant sys.faults == old(sys.faults)
      invariant forall j :: i <= j < |chain| ==> StatOf(sys.run[t], chain[j].0) == Some(chain[j].1)
    {
      i := i - 1;
      var again := sys.Stat(chain[i].0);
      if again.Fault? { return Fault(again.error); }
      if again.value != Some(chain[i].1) { return Ok(false); }
      StableLink(sys.run, sys.me, sys.meStart, at[i], t, sys.Now(), chain[i].0);
    }
    return Ok(true);
  }

  /** One turn of the upward walk. */
  datatype Turn = Top | Off | Up(next: int)

  /** The walk ends at the owner, at init, and at a parent seen before. */
  function TurnAt(longer: seq<(int, Link)>, current: int, link: Link, me: int, ownerStart: nat): Turn {
    if current == me then (if link.start != ownerStart then Off else Top)
    else if link.parent <= 1 || exists i :: 0 <= i < |longer| && longer[i].0 == link.parent then Off
    else Up(link.parent)
  }

  /** In a table that stands still the turn follows the line of descent. */
  lemma {:induction false} TurnWalks(k: Kernel, pid: int, current: int, chain: seq<(int, Link)>, link: Link, g: int)
    requires WellFormed(k) && g != INIT && g in k.procs
    requires Walking(k, pid, current, chain, g) && StatOf(k, current) == Some(link)
    ensures
      var turn := TurnAt(chain + [(current, link)], current, link, g, k.procs[g].start);
      && (turn.Up? && current != INIT ==> Walking(k, pid, turn.next, chain + [(current, link)], g))
      && (turn.Off? ==> !Under(k, pid, g))
  {
    assert ProcOk(k, current);
    var longer := chain + [(current, link)];
    if current != g {
      if TurnAt(longer, current, link, g, k.procs[g].start).Up? {
        if current != INIT { WalkOn(k, pid, current, chain, link, g); }
      } else {
        WalkEnds(k, pid, current, chain, g);
      }
    }
  }

  method Rung(sys: System, pid: int, ownerStart: nat, current: int, chain: seq<(int, Link)>, ghost at: seq<nat>,
              ghost s: nat)
    returns (r: Read<Turn>, longer: seq<(int, Link)>, ghost at': seq<nat>)
    requires sys.Valid() && s <= sys.Now()
    requires ChainFrom(chain, pid, current) && ReadAt(sys.run, chain, at, s, sys.Now())
    modifies sys`k, sys`run, sys`faults
    ensures sys.Quiet()
    ensures r.Ok? <==> sys.faults == old(sys.faults)
    ensures |longer| == |chain| + 1
    ensures r.Ok? && !r.value.Off? ==> ReadAt(sys.run, longer, at', s, sys.Now())
    ensures r == Ok(Top) ==> Chain(longer, pid, sys.me)
    ensures r.Ok? && r.value.Up? ==> ChainFrom(longer, pid, r.value.next)
    ensures r.Ok? && r.value.Up? ==> 1 < r.value.next && forall i :: 0 <= i < |longer| ==> longer[i].0 != r.value.next
    ensures
      && |sys.run| == old(|sys.run|) && r.Ok? && ownerStart == sys.meStart
      && Walking(sys.k, pid, current, chain, sys.me) ==>
      && (r.value.Up? ==> Walking(sys.k, pid, r.value.next, longer, sys.me))
      && (r.value.Off? ==> !Under(sys.k, pid, sys.me))
  {
    var read := sys.Stat(current);
    var link := if read.Ok? && read.value.Some? then read.value.value else Link(0, 0);
    longer := chain + [(current, link)];
    at' := at + [sys.Now()];
    if read.Fault? {
      r := Fault(read.error);
    } else if read.value.None? {
      r := Ok(Off);
    } else {
      r := Ok(TurnAt(longer, current, link, sys.me, ownerStart));
      if !r.value.Off? { Climb(old(sys.run), sys.run, chain, at, s, pid, current, link); }
      if Walking(sys.k, pid, current, chain, sys.me) { TurnWalks(sys.k, pid, current, chain, link, sys.me); }
    }
  }

  /** The first half of `is_owned`: walk parent links up to the owner. None when
      the walk ends anywhere else. In a table that stands still, a walk from a
      descendant with at most MAX_ANCESTRY links to the guard finds it. */
  method Ascend(sys: System, pid: int, ownerStart: nat)
    returns (r: Read<Option<seq<(int, Link)>>>, ghost at: seq<nat>)
    requires sys.Valid()
    modifies sys`k, sys`run, sys`faults
    ensures sys.Quiet()
    ensures r.Ok? <==> sys.faults == old(sys.faults)
    ensures r.Ok? && r.value.Some? ==>
      && Chain(r.value.value, pid, sys.me)
      && ReadAt(sys.run, r.value.value, at, old(sys.Now()), sys.Now())
    ensures r.Ok? && r.value.None? && |sys.run| == old(|sys.run|) && ownerStart == sys.meStart ==>
      Under(sys.k, pid, sys.me) ==> Depth(sys.k, pid, sys.me) > MAX_ANCESTRY
  {
    var chain: seq<(int, Link)> := [];
    var current := pid;
    at := [];
    r := Ok(None);
    for n := 0 to MAX_ANCESTRY
      invariant r == Ok(None)
      invariant sys.Quiet()
      invariant sys.faults == old(sys.faults)
      invariant |chain| == n && ChainFrom(chain, pid, current)
      invariant ReadAt(sys.run, chain, at, old(sys.Now()), sys.Now())
      invariant |sys.run| == old(|sys.run|) && ownerStart == sys.meStart ==> Walking(sys.k, pid, current, chain, sys.me)
    {
      var turn;
      turn, chain, at := Rung(sys, pid, ownerStart, current, chain, at, old(sys.Now()));
      if turn.Fault? {
        r := Fault(turn.error);
        break;
      }
      match turn.value
      case Top =>
        r := Ok(Some(chain));
        break;
      case Off =>
        break;
      case Up(next) =>
        current := next;
    }
  }

  /** Whether `pid` descends from the guard, through a parent chain that reads
      the same twice. A `true` is true at one common instant of the call; in a
      table that stands still, a `false` means no descendant, or one more than
      MAX_ANCESTRY links down. */
  method IsOwned(sys: System, pid: int, ownerStart: nat) returns (r: Read<bool>)
    requires sys.Valid()
    modifies sys`k, sys`run, sys`faults
    ensures sys.Quiet()
    ensures r.Ok? <==> sys.faults == old(sys.faults)
    ensures r == Ok(true) ==>
      exists t :: old(sys.Now()) <= t <= sys.Now() && UnderAt(sys.run, t, pid, sys.me)
    ensures r == Ok(false) && |sys.run| == old(|sys.run|) && ownerStart == sys.meStart ==>
      Under(sys.k, pid, sys.me) ==> Depth(sys.k, pid, sys.me) > 128
  {
    var found, at := Ascend(sys, pid, ownerStart);
    if found.Fault? { return Fault(found.error); }
    if found.value.None? { return Ok(false); }
    var chain := found.value.value;
    ghost var t := sys.Now();
    r := Recheck(sys, chain, at, old(sys.Now()), t);
    if r == Ok(true) {
      RunKeepsGuard(sys.run, sys.me, sys.meStart, t);
      ChainMeansUnder(sys.run[t], chain, sys.me, 0);
      assert UnderAt(sys.run, t, pid, sys.me);
    }
  }

  // --- Observation --------------------------------------------------------------

  predicate IsPid(p: int) {
    INIT <= p <= MAX_PID
  }

  ghost function AllPids(): set<int> {
    set p | INIT <= p <= MAX_PID && IsPid(p)
  }

  /** Closed under children from the root, so it holds every descendant. */
  lemma {:induction false} ClosedHasDescendants(k: Kernel, root: int, found: set<int>, p: int)
    requires WellFormed(k) && Descendant(k, p, root)
    requires forall q :: q == root || q in found ==> ChildrenOf(k, q) - {root} <= found
    ensures p in found
    decreases k.procs[p].birth
  {
    var q := k.procs[p].parent;
    assert ProcOk(k, p);
    if q != root { ClosedHasDescendants(k, root, found, q); }
    assert p in ChildrenOf(k, q);
  }

  /** Every process below the guard, list by list. In a table that stands still
      that is exactly the guard's descendants; otherwise it may be stale. */
  method Descendants(sys: System) returns (r: Read<set<int>>)
    requires sys.Valid()
    modifies sys`k, sys`run, sys`faults
    ensures sys.Quiet()
    ensures r.Ok? <==> sys.faults == old(sys.faults)
    ensures r.Ok? ==> sys.me !in r.value
    ensures r.Ok? && |sys.run| == old(|sys.run|) ==> forall p :: p in r.value <==> Descendant(sys.k, p, sys.me)
  {
    var root := sys.me;
    var found: set<int> := {};
    var pending := [root];
    while |pending| > 0
      invariant sys.Quiet()
      invariant sys.faults == old(sys.faults)
      invariant root !in found && found <= AllPids()
      invariant |sys.run| == old(|sys.run|) ==>
        && (forall p :: p in pending ==> p == root || p in found)
        && (forall p :: p in found ==> Under(sys.k, p, root))
        && (forall q :: q == root || q in found ==> q in pending || ChildrenOf(sys.k, q) - {root} <= found)
      decreases AllPids() - found, |pending|
    {
      var pid := pending[|pending| - 1];
      ghost var rest := pending[..|pending| - 1];
      assert pending == rest + [pid];
      pending := pending[..|pending| - 1];
      var children := sys.Children(pid);
      if children.Fault? { return Fault(children.error); }
      var unseen := children.value - found - {root};
      var more := Listed(unseen);
      assert forall p :: p in unseen ==> ProcOk(sys.k, p);
      assert unseen <= AllPids();
      found := found + unseen;
      pending := pending + more;
    }
    r := Ok(found);
    if |sys.run| == old(|sys.run|) {
      forall p | Descendant(sys.k, p, root) ensures p in found {
        ClosedHasDescendants(sys.k, root, found, p);
      }
    }
  }

  function Without(handles: Handles, pid: int): Handles {
    handles - {pid}
  }

  lemma KeptWithout(k: Kernel, handles: Handles, retained: set<Pidfd>, g: int, pid: int)
    requires Kept(k, handles, retained, g)
    requires pid in handles && !Holds(k, pid, handles[pid].1.birth)
    ensures Kept(k, Without(handles, pid), retained, g)
  {
    forall fd | fd in retained
      ensures KeptOrGone(k, fd, Without(handles, pid))
    {
      assert KeptOrGone(k, fd, handles);
    }
  }

  lemma KeptWith(k: Kernel, handles: Handles, retained: set<Pidfd>, g: int, start: nat, fd: Pidfd)
    requires Kept(k, handles, retained, g) && fd.pid !in handles
    requires Tame(k, fd, g) && (Holds(k, fd.pid, fd.birth) ==> k.procs[fd.pid].start == start)
    ensures Kept(k, handles[fd.pid := (start, fd)], retained + {fd}, g)
  {
    forall other | other in retained + {fd}
      ensures KeptOrGone(k, other, handles[fd.pid := (start, fd)])
    {
      assert other in retained ==> KeptOrGone(k, other, handles);
    }
  }

  /** Opens a pid that showed `start`, and keeps the pidfd only if the pid still
      shows it and is owned. The pidfd was opened at instant `b`. */
  method OpenOwned(sys: System, pid: int, start: nat, ownerStart: nat) returns (r: Read<Option<Pidfd>>, ghost b: nat)
    requires sys.Valid() && pid != sys.me
    requires pid in sys.k.procs && sys.k.procs[pid].start == start
    modifies sys`k, sys`run, sys`faults
    ensures sys.Quiet() && old(sys.Now()) <= b <= sys.Now()
    ensures r.Ok? <==> sys.faults == old(sys.faults)
    ensures r.Ok? && r.value.Some? ==>
      && HandleOk(sys.k, pid, start, r.value.value, sys.me)
      && Holds(sys.run[b], pid, r.value.value.birth)
    ensures r == Read.Ok(None) && |sys.run| == old(|sys.run|) && ownerStart == sys.meStart ==>
      Under(sys.k, pid, sys.me) ==> Depth(sys.k, pid, sys.me) > MAX_ANCESTRY
  {
    ghost var a := sys.Now();
    var handle := sys.PidfdOpen(pid);
    b := sys.Now();
    if handle.Fault? {
      r := Fault(handle.error);
    } else if handle.value.None? {
      r := Read.Ok(None);
    } else {
      var owned := StillOwned(sys, pid, start, ownerStart);
      r := if owned.Fault? then Fault(owned.error) else Read.Ok(if owned.value then handle.value else None);
      if owned == Read.Ok(true) {
        NewHandleIsTame(sys.run, sys.me, sys.meStart, a, b, sys.Now(), start, handle.value.value);
      }
    }
  }

  /** Whether the pid still shows `start`, and after that is owned. */
  method StillOwned(sys: System, pid: int, start: nat, ownerStart: nat) returns (r: Read<bool>)
    requires sys.Valid()
    modifies sys`k, sys`run, sys`faults
    ensures sys.Quiet()
    ensures r.Ok? <==> sys.faults == old(sys.faults)
    ensures r == Read.Ok(true) ==> ShownThenOwned(sys.run, old(sys.Now()), sys.Now(), pid, start, sys.me)
    ensures
      && r == Read.Ok(false) && |sys.run| == old(|sys.run|) && ownerStart == sys.meStart
      && ShowsAt(sys.run, sys.Now(), pid, start) ==>
      Under(sys.k, pid, sys.me) ==> Depth(sys.k, pid, sys.me) > MAX_ANCESTRY
  {
    var again := sys.Stat(pid);
    ghost var c := sys.Now();
    if again.Fault? {
      r := Fault(again.error);
    } else if again.value.None? || again.value.value.start != start {
      r := Read.Ok(false);
    } else {
      r := IsOwned(sys, pid, ownerStart);
      assert r == Read.Ok(true) ==> ShowsAt(sys.run, c, pid, start);
    }
  }

  /** The process was gone at some instant since `t0`. */
  ghost predicate WasGone(run: seq<Kernel>, t0: nat, fd: Pidfd) {
    exists t :: t0 <= t < |run| && !Holds(run[t], fd.pid, fd.birth)
  }

  /** Every handle released or replaced was of a process gone. */
  ghost predicate AllGone(run: seq<Kernel>, t0: nat, before: Handles, after: Handles) {
    forall p :: p in before && (p !in after || after[p] != before[p]) ==> WasGone(run, t0, before[p].1)
  }

  lemma GoneOn(run: seq<Kernel>, later: seq<Kernel>, t0: nat, t1: nat, before: Handles, between: Handles,
               after: Handles)
    requires run <= later && t0 <= t1
    requires AllGone(run, t0, before, between) && AllGone(later, t1, between, after)
    ensures AllGone(later, t0, before, after)
  {
    forall p | p in before && (p !in after || after[p] != before[p])
      ensures WasGone(later, t0, before[p].1)
    {
      if p !in between || between[p] != before[p] {
        WasGoneLater(run, later, t0, before[p].1);
      } else {
        var t :| t1 <= t < |later| && !Holds(later[t], before[p].1.pid, before[p].1.birth);
      }
    }
  }

  lemma WasGoneLater(run: seq<Kernel>, later: seq<Kernel>, t0: nat, fd: Pidfd)
    requires run <= later && WasGone(run, t0, fd)
    ensures WasGone(later, t0, fd)
  {
    var t :| t0 <= t < |run| && !Holds(run[t], fd.pid, fd.birth);
    assert !Holds(later[t], fd.pid, fd.birth);
  }

  /** Descendants retained by pidfd. `observed` counts the distinct processes
      ever retained. */
  class Tracker {
    var handles: Handles
    var observed: nat
    ghost var retained: set<Pidfd>

    constructor ()
      ensures handles == map[] && observed == 0 && retained == {}
    {
      handles, observed, retained := map[], 0, {};
    }

    ghost predicate Ok(sys: System)
      reads this, sys
    {
      Kept(sys.k, handles, retained, sys.me) && observed == |retained|
    }

    /** Every handle's process exists now. */
    ghost predicate AllExist(k: Kernel)
      reads this
    {
      forall p :: p in handles ==> Holds(k, p, handles[p].1.birth)
    }

    /** No handle but this pid's was touched. */
    twostate predicate Only(pid: int)
      reads this
    {
      forall p :: p != pid ==>
        (p in handles <==> p in old(handles)) && (p in handles ==> handles[p] == old(handles)[p])
    }

    /** Releases the handles of reaped processes, and no other. */
    method Prune(sys: System)
      requires sys.Valid() && Ok(sys)
      modifies this`handles, sys`k, sys`run
      ensures sys.Quiet() && Ok(sys)
      ensures forall p :: p in handles ==> p in old(handles) && handles[p] == old(handles)[p]
      ensures AllGone(sys.run, old(sys.Now()), old(handles), handles)
      ensures |sys.run| == old(|sys.run|) ==> AllExist(sys.k)
    {
      var pids := Listed(handles.Keys);
      ghost var t0 := sys.Now();
      for i := 0 to |pids|
        invariant sys.Quiet() && Ok(sys)
        invariant forall j :: i <= j < |pids| ==> pids[j] in handles
        invariant forall p :: p in handles ==> p in old(handles) && handles[p] == old(handles)[p]
        invariant AllGone(sys.run, t0, old(handles), handles)
        invariant |sys.run| == old(|sys.run|) ==>
          forall p :: p in handles && p !in pids[i..] ==> Holds(sys.k, p, handles[p].1.birth)
      {
        assert forall j :: i < j < |pids| ==> pids[j] != pids[i];
        label turn:
        PruneOne(sys, pids[i]);
        GoneOn(old@turn(sys.run), sys.run, t0, old@turn(sys.Now()), old(handles), old@turn(handles), handles);
      }
    }

    method PruneOne(sys: System, pid: int)
      requires sys.Valid() && Ok(sys) && pid in handles
      modifies this`handles, sys`k, sys`run
      ensures sys.Quiet() && Ok(sys)
      ensures forall p :: p in old(handles) && p != pid ==> p in handles
      ensures forall p :: p in handles ==> p in old(handles) && handles[p] == old(handles)[p]
      ensures pid in handles ==> Holds(sys.k, pid, handles[pid].1.birth)
      ensures AllGone(sys.run, old(sys.Now()), old(handles), handles)
    {
      var alive := sys.Exists(handles[pid].1);
      KeptStays(sys.run, sys.me, sys.meStart, old(sys.Now()), sys.Now(), handles, retained);
      if !alive {
        KeptWithout(sys.k, handles, retained, sys.me, pid);
        handles := Without(handles, pid);
      }
    }

    /** Reads the pid's start time. None: gone, or already retained. A handle kept
        under another start time names a gone process, and is dropped. */
    method Sought(sys: System, pid: int) returns (r: Read<Option<nat>>)
      requires sys.Valid() && Ok(sys)
      modifies this`handles, sys`k, sys`run, sys`faults
      ensures sys.Quiet() && Ok(sys) && Only(pid)
      ensures r.Ok? <==> sys.faults == old(sys.faults)
      ensures AllGone(sys.run, old(sys.Now()), old(handles), handles)
      ensures pid in handles ==> pid in old(handles) && handles[pid] == old(handles)[pid]
      ensures r.Ok? && r.value.Some? ==>
        pid !in handles && pid in sys.k.procs && sys.k.procs[pid].start == r.value.value
      ensures |sys.run| == old(|sys.run|) && old(AllExist(sys.k)) ==>
        AllExist(sys.k) && handles == old(handles) && (r == Read.Ok(None) ==> pid in handles || pid !in sys.k.procs)
    {
      var first := sys.Stat(pid);
      KeptStays(sys.run, sys.me, sys.meStart, old(sys.Now()), sys.Now(), handles, retained);
      if first.Fault? {
        r := Fault(first.error);
      } else if first.value.None? || (pid in handles && handles[pid].0 == first.value.value.start) {
        r := Read.Ok(None);
      } else {
        if pid in handles {
          assert HandleOk(sys.k, pid, handles[pid].0, handles[pid].1, sys.me);
          KeptWithout(sys.k, handles, retained, sys.me, pid);
          handles := Without(handles, pid);
        }
        r := Read.Ok(Some(first.value.value.start));
      }
    }

    /** One pid of the snapshot: retain it if it is a new owned process. */
    method Retain(sys: System, pid: int, ownerStart: nat) returns (r: Read<()>)
      requires sys.Valid() && Ok(sys) && pid != sys.me
      modifies this, sys`k, sys`run, sys`faults
      ensures sys.Quiet() && Ok(sys) && Only(pid)
      ensures r.Ok? <==> sys.faults == old(sys.faults)
      ensures AllGone(sys.run, old(sys.Now()), old(handles), handles)
      ensures retained == old(retained) || (r.Ok? && pid in handles && retained == old(retained) + {handles[pid].1})
      ensures |sys.run| == old(|sys.run|) && ownerStart == sys.meStart && old(AllExist(sys.k)) ==>
        && AllExist(sys.k)
        && old(handles.Keys) <= handles.Keys
        && (r.Ok? && Under(sys.k, pid, sys.me) && Depth(sys.k, pid, sys.me) <= MAX_ANCESTRY ==> pid in handles)
    {
      r := Read.Ok(());
      var sought := Sought(sys, pid);
      if sought.Fault? {
        r := Fault(sought.error);
      } else if sought.value.Some? {
        var start := sought.value.value;
        ghost var a := sys.Now();
        label sought:
        var found, b := OpenOwned(sys, pid, start, ownerStart);
        KeptStays(sys.run, sys.me, sys.meStart, a, sys.Now(), handles, retained);
        GoneOn(old@sought(sys.run), sys.run, old(sys.Now()), a, old(handles), handles, handles);
        if found.Fault? {
          r := Fault(found.error);
        } else if found.value.Some? {
          Add(sys, start, found.value.value, a, b);
        }
      }
    }

    /** Prune, then retain every new owned process of one snapshot. In a table that
        stands still it misses no descendant within MAX_ANCESTRY links. */
    method Observe(sys: System) returns (r: Read<()>)
      requires sys.Valid() && Ok(sys)
      modifies this, sys`k, sys`run, sys`faults
      ensures sys.Quiet() && Ok(sys)
      ensures r.Ok? <==> sys.faults == old(sys.faults)
      ensures old(retained) <= retained && AllGone(sys.run, old(sys.Now()), old(handles), handles)
      ensures r.Ok? && |sys.run| == old(|sys.run|) ==>
        && AllExist(sys.k)
        && forall p :: Descendant(sys.k, p, sys.me) && Depth(sys.k, p, sys.me) <= 128 ==> p in handles
    {
      Prune(sys);
      label pruned:
      var owner := sys.Stat(sys.me);
      KeptStays(sys.run, sys.me, sys.meStart, old@pruned(sys.Now()), sys.Now(), handles, retained);
      GoneOn(old@pruned(sys.run), sys.run, old(sys.Now()), old@pruned(sys.Now()), old(handles), handles, handles);
      if owner.Fault? {
        r := Fault(owner.error);
      } else if owner.value.None? {
        r := Fault("IdentityUnavailable");
      } else {
        label found:
        r := RetainFound(sys, owner.value.value.start);
        GoneOn(old@found(sys.run), sys.run, old(sys.Now()), old@found(sys.Now()), old(handles), old@found(handles),
               handles);
      }
    }

    /** Retains every new owned process of one snapshot. */
    method RetainFound(sys: System, ownerStart: nat) returns (r: Read<()>)
      requires sys.Valid() && Ok(sys)
      modifies this, sys`k, sys`run, sys`faults
      ensures sys.Quiet() && Ok(sys)
      ensures r.Ok? <==> sys.faults == old(sys.faults)
      ensures old(retained) <= retained && AllGone(sys.run, old(sys.Now()), old(handles), handles)
      ensures r.Ok? && |sys.run| == old(|sys.run|) && ownerStart == sys.meStart && old(AllExist(sys.k)) ==>
        && AllExist(sys.k)
        && forall p :: Descendant(sys.k, p, sys.me) && Depth(sys.k, p, sys.me) <= MAX_ANCESTRY ==> p in handles
    {
      var found := Descendants(sys);
      KeptStays(sys.run, sys.me, sys.meStart, old(sys.Now()), sys.Now(), handles, retained);
      if found.Fault? {
        r := Fault(found.error);
      } else {
        label scanned:
        r := RetainAll(sys, found.value, ownerStart);
        GoneOn(old@scanned(sys.run), sys.run, old(sys.Now()), old@scanned(sys.Now()), old(handles), old(handles),
               handles);
      }
    }

    method RetainAll(sys: System, found: set<int>, ownerStart: nat) returns (r: Read<()>)
      requires sys.Valid() && Ok(sys) && sys.me !in found
      modifies this, sys`k, sys`run, sys`faults
      ensures sys.Quiet() && Ok(sys)
      ensures r.Ok? <==> sys.faults == old(sys.faults)
      ensures old(retained) <= retained && AllGone(sys.run, old(sys.Now()), old(handles), handles)
      ensures r.Ok? && |sys.run| == old(|sys.run|) && ownerStart == sys.meStart && old(AllExist(sys.k)) ==>
        && AllExist(sys.k)
        && forall p :: p in found && Under(sys.k, p, sys.me) && Depth(sys.k, p, sys.me) <= MAX_ANCESTRY ==> p in handles
    {
      var pids := Listed(found);
      r := Read.Ok(());
      for i := 0 to |pids|
        invariant sys.Quiet() && Ok(sys)
        invariant sys.faults == old(sys.faults)
        invariant old(retained) <= retained && r.Ok? && AllGone(sys.run, old(sys.Now()), old(handles), handles)
        invariant |sys.run| == old(|sys.run|) && ownerStart == sys.meStart && old(AllExist(sys.k)) ==>
          && AllExist(sys.k)
          && forall j :: 0 <= j < i ==>
               Under(sys.k, pids[j], sys.me) && Depth(sys.k, pids[j], sys.me) <= MAX_ANCESTRY ==> pids[j] in handles
      {
        label turn:
        r := Retain(sys, pids[i], ownerStart);
        GoneOn(old@turn(sys.run), sys.run, old(sys.Now()), old@turn(sys.Now()), old(handles), old@turn(handles),
               handles);
        if r.Fault? { break; }
      }
    }

    /** Keeps a new handle, opened at instant `b` while no handle had its pid. */
    method Add(sys: System, start: nat, fd: Pidfd, ghost a: nat, ghost b: nat)
      requires sys.Valid() && Ok(sys) && a <= b <= sys.Now()
      requires fd.pid !in handles && HandleOk(sys.k, fd.pid, start, fd, sys.me)
      requires Kept(sys.run[a], handles, retained, sys.me) && Holds(sys.run[b], fd.pid, fd.birth)
      modifies this
      ensures Ok(sys)
      ensures handles == old(handles)[fd.pid := (start, fd)]
      ensures observed == old(observed) + 1 && retained == old(retained) + {fd}
    {
      KeptStays(sys.run, sys.me, sys.meStart, a, b, handles, retained);
      assert fd in retained ==> KeptOrGone(sys.run[b], fd, handles);
      KeptWith(sys.k, handles, retained, sys.me, start, fd);
      handles := handles[fd.pid := (start, fd)];
      observed := observed + 1;
      retained := retained + {fd};
    }
  }
}
