/** The Linux guard's supervision of one browser (guard_main.rs): reap, send,
    running, drain and the receipt. */
module LinuxSupervisor {
  import opened Common
  import opened LinuxKernel
  import opened LinuxGuard

  /** libc's WIFEXITED, WEXITSTATUS, WIFSIGNALED and WTERMSIG on a wait status. */
  function ExitCode(status: nat): int {
    var low := status % 128;
    if low == 0 then status / 256 % 256
    else if low < 127 then -low
    else status
  }

  /** waitpid's status of a process that exited with `code`, or that `signal` ended,
      with a core dump or without; the status of a stopped one is shown as it is. */
  lemma ExitCodes(code: nat, signal: int, core: bool)
    requires code < 256 && 0 < signal < 127
    ensures ExitCode(256 * code) == code && ExitCode(256 * code + 127) == 256 * code + 127
    ensures ExitCode(signal + if core then 128 else 0) == -signal
  {
  }

  /** Only a normal exit with status 0 reads as 0. */
  lemma ExitCodeZero(status: nat)
    ensures ExitCode(status) == 0 <==> status % 128 == 0 && status / 256 % 256 == 0
  {
  }

  /** A child of the guard that it has not reaped: it keeps its pid. */
  ghost predicate Unreaped(k: Kernel, c: int, birth: nat, g: int) {
    c != INIT && c != g && Holds(k, c, birth) && k.procs[c].parent == g
  }

  /** Process `birth` ended, and `code` is its own exit code. */
  ghost predicate ExitedAs(run: seq<Kernel>, c: int, birth: nat, code: int) {
    exists i :: 0 <= i < |run| && EndedAt(run[i], c, birth, code)
  }

  ghost predicate EndedAt(k: Kernel, c: int, birth: nat, code: int) {
    Holds(k, c, birth) && k.procs[c].life.Zombie? && ExitCode(k.procs[c].life.status) == code
  }

  lemma {:induction false} UnreapedStays(run: seq<Kernel>, g: int, gs: nat, i: nat, j: nat, c: int, birth: nat)
    requires Run(run, g, gs) && i <= j < |run| && OthersBetween(run, i, j, g)
    requires Unreaped(run[i], c, birth, g)
    ensures Unreaped(run[j], c, birth, g)
    decreases j - i
  {
    if i < j {
      UnreapedStays(run, g, gs, i, j - 1, c, birth);
      assert OtherStep(run[j - 1], run[j - 1 + 1], g);
      var s :| Enabled(run[j - 1], s) && Actor(run[j - 1], s) != g && Effect(run[j - 1], s, run[j]);
    }
  }

  lemma UnreapedHasParent(k: Kernel, c: int, birth: nat, g: int)
    requires WellFormed(k) && Alive(k, g) && Unreaped(k, c, birth, g)
    ensures Descendant(k, c, g) && !Childless(k, g)
  {
    assert ProcOk(k, c);
    assert Under(k, g, g);
  }

  /** What the guard knows of the browser: unreaped until its own exit code is
      recorded, and named by the pidfd if that could be opened. */
  ghost predicate BrowserKnown(run: seq<Kernel>, g: int, child: Option<int>, fd: Option<Pidfd>, exit: Option<int>,
                               birth: nat) {
    && |run| > 0
    && (child.None? ==> fd.None? && exit.None?)
    && (child.Some? ==>
          && (exit.None? ==> Unreaped(run[|run| - 1], child.value, birth, g))
          && (exit.Some? ==> ExitedAs(run, child.value, birth, exit.value))
          && (fd.Some? ==> fd.value == Pidfd(child.value, birth)))
  }

  lemma ExitedStays(run: seq<Kernel>, later: seq<Kernel>, c: int, birth: nat, code: int)
    requires run <= later && ExitedAs(run, c, birth, code)
    ensures ExitedAs(later, c, birth, code)
  {
    var i :| 0 <= i < |run| && EndedAt(run[i], c, birth, code);
    assert EndedAt(later[i], c, birth, code);
  }

  lemma BrowserStays(run: seq<Kernel>, later: seq<Kernel>, g: int, gs: nat,
                     child: Option<int>, fd: Option<Pidfd>, exit: Option<int>, birth: nat)
    requires BrowserKnown(run, g, child, fd, exit, birth)
    requires Run(later, g, gs) && run <= later && OthersBetween(later, |run| - 1, |later| - 1, g)
    ensures BrowserKnown(later, g, child, fd, exit, birth)
  {
    if child.Some? && exit.None? {
      UnreapedStays(later, g, gs, |run| - 1, |later| - 1, child.value, birth);
    } else if child.Some? {
      ExitedStays(run, later, child.value, birth, exit.value);
    }
  }

  /** Reaping `pid` ends the browser exactly when the browser is that child. */
  lemma BrowserReaped(run: seq<Kernel>, later: seq<Kernel>, g: int, gs: nat, pid: int, status: nat,
                      child: Option<int>, fd: Option<Pidfd>, exit: Option<int>, birth: nat)
    requires BrowserKnown(run, g, child, fd, exit, birth)
    requires Run(later, g, gs) && run <= later && |run| < |later| && OthersBetween(later, |run| - 1, |later| - 2, g)
    requires Took(later[|later| - 2], Reap(pid), later[|later| - 1])
    requires later[|later| - 2].procs[pid].life == Zombie(status)
    ensures BrowserKnown(later, g, child, fd,
                         if child == Some(pid) && exit.None? then Some(ExitCode(status)) else exit, birth)
  {
    var j := |later| - 2;
    if child.Some? && exit.None? {
      UnreapedStays(later, g, gs, |run| - 1, j, child.value, birth);
      if child.value == pid {
        assert EndedAt(later[j], pid, birth, ExitCode(status));
      }
    } else if child.Some? {
      ExitedStays(run, later, child.value, birth, exit.value);
    }
  }

  /** Every process ever signalled was then a descendant, and is counted in
      `forced` unless it is the browser itself. */
  ghost predicate SignalsKnown(run: seq<Kernel>, delivered: seq<Delivery>, g: int, forced: set<int>,
                               child: Option<int>, birth: nat) {
    && OnlyDescendantsSignalled(run, delivered, g)
    && forall d :: d in delivered ==> d.pid in forced || (child == Some(d.pid) && d.birth == birth)
  }

  lemma SignalsStay(run: seq<Kernel>, later: seq<Kernel>, delivered: seq<Delivery>, g: int, forced: set<int>,
                    child: Option<int>, birth: nat)
    requires run <= later && SignalsKnown(run, delivered, g, forced, child, birth)
    ensures SignalsKnown(later, delivered, g, forced, child, birth)
  {
    forall d | d in delivered
      ensures DeliveredToDescendant(later, d, g)
    {
      assert DeliveredToDescendant(run, d, g);
      assert later[d.time] == run[d.time];
    }
  }

  lemma SignalsPush(run: seq<Kernel>, delivered: seq<Delivery>, g: int, forced: set<int>, forced': set<int>,
                    child: Option<int>, birth: nat, d: Delivery)
    requires SignalsKnown(run, delivered, g, forced, child, birth) && forced <= forced'
    requires DeliveredToDescendant(run, d, g)
    requires d.pid in forced' || (child == Some(d.pid) && d.birth == birth)
    ensures SignalsKnown(run, delivered + [d], g, forced', child, birth)
  {
  }

  /** The process existed at some instant since `t0`. */
  ghost predicate Existed(run: seq<Kernel>, t0: nat, fd: Pidfd) {
    exists t :: t0 <= t < |run| && Holds(run[t], fd.pid, fd.birth)
  }

  /** Of the first `i` pids those in `alive` existed since `t0`, the others had gone. */
  ghost predicate Checked(run: seq<Kernel>, t0: nat, handles: Handles, pids: seq<int>, i: nat, alive: seq<int>)
    requires i <= |pids| && forall j :: 0 <= j < |pids| ==> pids[j] in handles
  {
    && (forall p :: p in alive ==> p in handles && Existed(run, t0, handles[p].1))
    && forall j :: 0 <= j < i ==> pids[j] in alive || WasGone(run, t0, handles[pids[j]].1)
  }

  lemma ExistedLater(run: seq<Kernel>, later: seq<Kernel>, t0: nat, fd: Pidfd)
    requires run <= later && Existed(run, t0, fd)
    ensures Existed(later, t0, fd)
  {
    var t :| t0 <= t < |run| && Holds(run[t], fd.pid, fd.birth);
    assert Holds(later[t], fd.pid, fd.birth);
  }

  lemma ExistedEarlier(run: seq<Kernel>, t0: nat, t1: nat, fd: Pidfd)
    requires t0 <= t1
    ensures Existed(run, t1, fd) ==> Existed(run, t0, fd)
    ensures WasGone(run, t1, fd) ==> WasGone(run, t0, fd)
  {
  }

  lemma CheckedNext(run: seq<Kernel>, later: seq<Kernel>, t0: nat, t1: nat, handles: Handles, pids: seq<int>, i: nat,
                    alive: seq<int>, still: bool)
    requires i < |pids| && (forall j :: 0 <= j < |pids| ==> pids[j] in handles)
    requires run <= later && t0 <= t1 && Checked(run, t0, handles, pids, i, alive)
    requires if still then Existed(later, t1, handles[pids[i]].1) else WasGone(later, t1, handles[pids[i]].1)
    ensures Checked(later, t0, handles, pids, i + 1, if still then alive + [pids[i]] else alive)
  {
    var alive' := if still then alive + [pids[i]] else alive;
    ExistedEarlier(later, t0, t1, handles[pids[i]].1);
    forall p | p in alive' ensures p in handles && Existed(later, t0, handles[p].1) {
      if p in alive { ExistedLater(run, later, t0, handles[p].1); }
    }
    forall j | 0 <= j < i + 1 ensures pids[j] in alive' || WasGone(later, t0, handles[pids[j]].1) {
      if j < i && pids[j] !in alive { WasGoneLater(run, later, t0, handles[pids[j]].1); }
    }
  }

  /** How many turns have failed in a row. */
  function Streak(turns: seq<bool>): nat {
    if turns == [] || !turns[|turns| - 1] then 0 else 1 + Streak(turns[..|turns| - 1])
  }

  lemma {:induction false} OneMoreTurn(turns: seq<bool>, failed: bool)
    requires forall i :: 0 <= i < |turns| ==> Streak(turns[..i]) < MAX_RUNNING_FAULTS
    requires Streak(turns) < MAX_RUNNING_FAULTS
    ensures Streak(turns + [failed]) == if failed then Streak(turns) + 1 else 0
    ensures forall i :: 0 <= i < |turns| + 1 ==> Streak((turns + [failed])[..i]) < MAX_RUNNING_FAULTS
  {
    var more := turns + [failed];
    assert more[..|turns|] == turns;
    forall i | 0 <= i < |more| ensures Streak(more[..i]) < MAX_RUNNING_FAULTS {
      if i < |turns| { assert more[..i] == turns[..i]; } else { assert more[..i] == turns; }
    }
  }

  /** From entry `n` on, this signal only. */
  ghost predicate OnlySignal(delivered: seq<Delivery>, n: nat, signal: int) {
    forall i :: n <= i < |delivered| ==> delivered[i].signal == signal
  }

  const RUNNING_TICK := 250
  const DRAIN_TICK := 20
  const MAX_RUNNING_FAULTS := 8
  const SIGTERM := 15
  const SIGKILL := 9

  lemma Constants()
    ensures RUNNING_TICK == 250 && DRAIN_TICK == 20 && MAX_RUNNING_FAULTS == 8 && SIGTERM == 15 && SIGKILL == 9
  {
  }

  /** Since instant `t0` (and delivery `n`) the process was sent the signal, or was
      gone at some instant; or a failure is on record. */
  ghost predicate Served(run: seq<Kernel>, delivered: seq<Delivery>, errors: set<string>, fd: Pidfd, signal: int,
                         t0: nat, n: nat) {
    || (exists i :: n <= i < |delivered| && delivered[i].birth == fd.birth && delivered[i].signal == signal)
    || WasGone(run, t0, fd)
    || errors != {}
  }

  lemma ServedStays(run: seq<Kernel>, later: seq<Kernel>, delivered: seq<Delivery>, more: seq<Delivery>,
                    errors: set<string>, errors': set<string>, fd: Pidfd, signal: int, t0: nat, n: nat)
    requires run <= later && delivered <= more && errors <= errors'
    requires Served(run, delivered, errors, fd, signal, t0, n)
    ensures Served(later, more, errors', fd, signal, t0, n)
  {
    if i :| n <= i < |delivered| && delivered[i].birth == fd.birth && delivered[i].signal == signal {
      assert more[i] == delivered[i];
    } else if WasGone(run, t0, fd) {
      WasGoneLater(run, later, t0, fd);
    }
  }

  lemma ServedEarlier(run: seq<Kernel>, delivered: seq<Delivery>, errors: set<string>, fd: Pidfd, signal: int,
                      t: nat, t0: nat, m: nat, n: nat)
    requires t0 <= t && n <= m && Served(run, delivered, errors, fd, signal, t, m)
    ensures Served(run, delivered, errors, fd, signal, t0, n)
  {
  }

  /** What one attempt to signal leaves. */
  lemma ServedNow(run: seq<Kernel>, delivered: seq<Delivery>, errors: set<string>, sent: Sent, fd: Pidfd, signal: int,
                  t0: nat, n: nat)
    requires 0 <= t0 < |run| && n < |delivered| + (if sent.Delivered? then 0 else 1)
    requires sent.Delivered? ==>
      delivered[|delivered| - 1].birth == fd.birth && delivered[|delivered| - 1].signal == signal
    requires sent.NoSuchProcess? ==> !Holds(run[|run| - 1], fd.pid, fd.birth)
    requires sent.Failed? ==> errors != {}
    ensures Served(run, delivered, errors, fd, signal, t0, n)
  {
  }

  datatype Receipt = Receipt(
    rootExit: Option<int>,
    complete: bool,
    remaining: seq<int>,
    kernelNoChildren: bool,
    observed: nat,
    forcedCleanup: nat,
    error: Option<string>,
    cleanupErrors: set<string>,
    nonFatalErrors: set<string>)

  /** A wait: when it was asked for, and how long at most. */
  datatype Ask = Ask(now: nat, limit: nat)

  /** The waits of a drain phase that began at `start`. */
  datatype Waits = Waits(start: nat, asked: seq<Ask>)

  /** Each was asked before the phase's deadline, for 20 ms at most, to end by it. */
  predicate Within(w: Waits, budget: nat) {
    forall a :: a in w.asked ==> w.start <= a.now < a.now + a.limit <= w.start + budget && a.limit <= 20
  }

  datatype Reaping = AllGone | SomeLeft | ReapFault(error: string) | Cut

  class Guard {
    const sys: System
    const tracker: Tracker
    var child: Option<int>
    var childFd: Option<Pidfd>
    var rootExit: Option<int>
    var forced: set<int>
    var cleanupErrors: set<string>
    var nonFatal: set<string>
    ghost var browser: nat

    constructor (sys: System, tracker: Tracker)
      requires sys.Valid() && tracker.Ok(sys) && sys.delivered == []
      ensures Valid() && this.sys == sys && this.tracker == tracker
      ensures child.None? && cleanupErrors == {}
    {
      this.sys, this.tracker := sys, tracker;
      child, childFd, rootExit := None, None, None;
      forced, cleanupErrors, nonFatal, browser := {}, {}, {}, 0;
    }

    ghost predicate BrowserOk()
      reads this, sys
    {
      BrowserKnown(sys.run, sys.me, child, childFd, rootExit, browser)
    }

    ghost predicate SignalsOk()
      reads this, sys
    {
      SignalsKnown(sys.run, sys.delivered, sys.me, forced, child, browser)
    }

    ghost predicate Valid()
      reads this, sys, tracker
    {
      sys.Valid() && tracker.Ok(sys) && BrowserOk() && SignalsOk()
    }

    /** The run went on; nothing recorded was lost. */
    twostate predicate Onward()
      reads this, sys, tracker
    {
      && Valid()
      && old(sys.run) <= sys.run
      && old(sys.delivered) <= sys.delivered
      && sys.fuel <= old(sys.fuel)
      && child == old(child) && browser == old(browser)
      && (old(rootExit).Some? ==> rootExit == old(rootExit))
      && old(forced) <= forced
      && old(cleanupErrors) <= cleanupErrors
      && old(nonFatal) <= nonFatal
      && old(tracker.retained) <= tracker.retained
      && old(sys.faults) <= sys.faults && old(sys.stops) <= sys.stops
      && (sys.faults == old(sys.faults) ==> cleanupErrors == old(cleanupErrors) && nonFatal == old(nonFatal))
    }

    /** Every descendant of the guard in this table, 128 links down at most, is retained. */
    ghost predicate AllSeen(k: Kernel)
      requires WellFormed(k)
      reads tracker`handles
    {
      forall p :: Descendant(k, p, sys.me) && Depth(k, p, sys.me) <= 128 ==> p in tracker.handles
    }

    method SafeObserve()
      requires Valid()
      modifies this`cleanupErrors, tracker, sys`k, sys`run, sys`faults
      ensures Onward() && sys.Quiet()
      ensures sys.faults == old(sys.faults) && |sys.run| == old(|sys.run|) ==> AllSeen(sys.k)
    {
      var r := tracker.Observe(sys);
      BrowserStays(old(sys.run), sys.run, sys.me, sys.meStart, child, childFd, rootExit, browser);
      SignalsStay(old(sys.run), sys.run, sys.delivered, sys.me, forced, child, browser);
      if r.Fault? { cleanupErrors := cleanupErrors + {r.error}; }
    }

    /** One waitpid, and the record of the browser's exit when it was the browser's. */
    method ReapOne() returns (r: Waited)
      requires Valid() && sys.fuel > 0
      modifies this`rootExit, sys`k, sys`run, sys`faults, sys`fuel
      ensures Onward() && sys.fuel < old(sys.fuel)
      ensures sys.faults == old(sys.faults) + if r.WaitFailed? then 1 else 0
      ensures r.LiveChildren? ==> !Childless(sys.k, sys.me)
      ensures r.NoChild? ==> Childless(sys.k, sys.me)
    {
      r := sys.WaitPid();
      Recorded(old(sys.run), sys.run, sys.delivered, tracker.handles, tracker.retained, r);
      if r.Reaped? && child == Some(r.pid) && rootExit.None? { rootExit := Some(ExitCode(r.status)); }
    }

    /** What one waitpid leaves true, the browser's exit recorded. */
    lemma Recorded(run: seq<Kernel>, later: seq<Kernel>, delivered: seq<Delivery>, handles: Handles,
                   retained: set<Pidfd>, r: Waited)
      requires BrowserKnown(run, sys.me, child, childFd, rootExit, browser)
      requires SignalsKnown(run, delivered, sys.me, forced, child, browser)
      requires Kept(run[|run| - 1], handles, retained, sys.me)
      requires Run(later, sys.me, sys.meStart) && run <= later
      requires !r.Reaped? ==> OthersBetween(later, |run| - 1, |later| - 1, sys.me)
      requires r.Reaped? ==>
        && |run| < |later| && OthersBetween(later, |run| - 1, |later| - 2, sys.me)
        && Took(later[|later| - 2], Step.Reap(r.pid), later[|later| - 1])
        && later[|later| - 2].procs[r.pid].life == Zombie(r.status)
      ensures BrowserKnown(later, sys.me, child, childFd,
                           if r.Reaped? && child == Some(r.pid) && rootExit.None?
                           then Some(ExitCode(r.status)) else rootExit,
                           browser)
      ensures SignalsKnown(later, delivered, sys.me, forced, child, browser)
      ensures Kept(later[|later| - 1], handles, retained, sys.me)
    {
      SignalsStay(run, later, delivered, sys.me, forced, child, browser);
      assert later[|run| - 1] == run[|run| - 1];
      KeptStays(later, sys.me, sys.meStart, |run| - 1, |later| - 1, handles, retained);
      if r.Reaped? {
        BrowserReaped(run, later, sys.me, sys.meStart, r.pid, r.status, child, childFd, rootExit, browser);
      } else {
        BrowserStays(run, later, sys.me, sys.meStart, child, childFd, rootExit, browser);
      }
    }

    /** Reaps every exited child. AllGone only on ECHILD; then the browser's own
        exit code has been recorded, if it was ever started. */
    method Reap() returns (r: Reaping)
      requires Valid()
      modifies this`rootExit, sys`k, sys`run, sys`faults, sys`fuel
      ensures Onward()
      ensures r.AllGone? ==> Childless(sys.k, sys.me) && (child.Some? ==> rootExit.Some?)
      ensures r.SomeLeft? ==> !Childless(sys.k, sys.me)
      ensures r.Cut? ==> sys.fuel == 0
      ensures sys.faults == old(sys.faults) + if r.ReapFault? then 1 else 0
      ensures sys.fuel < old(sys.fuel) || r.Cut?
    {
      r := Cut;
      while sys.fuel > 0
        invariant Onward() && r == Cut && sys.faults == old(sys.faults)
        decreases sys.fuel
      {
        var w := ReapOne();
        match w
        case LiveChildren =>
          r := SomeLeft;
          break;
        case NoChild =>
          r := AllGone;
          if child.Some? && rootExit.None? {
            UnreapedHasParent(sys.k, child.value, browser, sys.me);
          }
          break;
        case WaitFailed(error) =>
          r := ReapFault(error);
          break;
        case Interrupted =>
        case Reaped(_, _) =>
      }
    }

    method SafeReap() returns (gone: bool, cut: bool)
      requires Valid()
      modifies this`rootExit, this`cleanupErrors, sys`k, sys`run, sys`faults, sys`fuel
      ensures Onward()
      ensures gone ==> Childless(sys.k, sys.me) && (child.Some? ==> rootExit.Some?)
      ensures sys.faults == old(sys.faults) && !cut && !gone ==> !Childless(sys.k, sys.me)
      ensures (sys.fuel < old(sys.fuel) || cut) && (cut ==> sys.fuel == 0)
    {
      var r := Reap();
      gone, cut := r.AllGone?, r.Cut?;
      if r.ReapFault? { cleanupErrors := cleanupErrors + {r.error}; }
    }

    /** What every invariant owes to the other processes having gone on. */
    twostate lemma Settle()
      requires old(Valid()) && sys.Quiet() && unchanged(this) && unchanged(tracker)
      ensures tracker.Ok(sys) && BrowserOk()
      ensures SignalsKnown(sys.run, old(sys.delivered), sys.me, forced, child, browser)
    {
      KeptStays(sys.run, sys.me, sys.meStart, |old(sys.run)| - 1, sys.Now(), tracker.handles, tracker.retained);
      BrowserStays(old(sys.run), sys.run, sys.me, sys.meStart, child, childFd, rootExit, browser);
      SignalsStay(old(sys.run), sys.run, old(sys.delivered), sys.me, forced, child, browser);
    }

    /** Signals one retained descendant through its pidfd. */
    method SignalHandle(pid: int, signal: int)
      requires Valid() && pid in tracker.handles
      modifies this`forced, this`cleanupErrors, sys`k, sys`run, sys`faults, sys`delivered
      ensures Onward() && sys.Quiet() && OnlySignal(sys.delivered, old(|sys.delivered|), signal)
      ensures Served(sys.run, sys.delivered, cleanupErrors, tracker.handles[pid].1, signal, old(sys.Now()),
                     old(|sys.delivered|))
    {
      var fd := tracker.handles[pid].1;
      var sent := sys.Signal(fd, signal);
      Settle();
      assert HandleOk(sys.k, pid, tracker.handles[pid].0, fd, sys.me);
      match sent {
        case Delivered =>
          SignalsPush(sys.run, old(sys.delivered), sys.me, forced, forced + {pid}, child, browser,
                      Delivery(sys.Now(), pid, fd.birth, signal));
          forced := forced + {pid};
        case NoSuchProcess =>
        case Failed(error) =>
          cleanupErrors := cleanupErrors + {error};
      }
      ServedNow(sys.run, sys.delivered, cleanupErrors, sent, fd, signal, old(sys.Now()), old(|sys.delivered|));
    }

    /** Every handle's process was sent the signal, or was gone by then, or a failure
        is on record. */
    ghost predicate AllServed(signal: int, t0: nat, n: nat)
      reads this, sys, tracker
    {
      forall p :: p in tracker.handles ==>
        Served(sys.run, sys.delivered, cleanupErrors, tracker.handles[p].1, signal, t0, n)
    }

    method SignalHandles(signal: int)
      requires Valid()
      modifies this`forced, this`cleanupErrors, sys`k, sys`run, sys`faults, sys`delivered
      ensures Onward() && sys.Quiet() && OnlySignal(sys.delivered, old(|sys.delivered|), signal)
      ensures AllServed(signal, old(sys.Now()), old(|sys.delivered|))
    {
      var pids := Listed(tracker.handles.Keys);
      ghost var t0, n := sys.Now(), |sys.delivered|;
      for i := 0 to |pids|
        invariant Onward() && sys.Quiet() && OnlySignal(sys.delivered, n, signal)
        invariant forall j :: 0 <= j < i ==>
          Served(sys.run, sys.delivered, cleanupErrors, tracker.handles[pids[j]].1, signal, t0, n)
      {
        label turn:
        SignalHandle(pids[i], signal);
        forall j | 0 <= j < i
          ensures Served(sys.run, sys.delivered, cleanupErrors, tracker.handles[pids[j]].1, signal, t0, n)
        {
          ServedStays(old@turn(sys.run), sys.run, old@turn(sys.delivered), sys.delivered, old@turn(cleanupErrors),
                      cleanupErrors,
                      tracker.handles[pids[j]].1, signal, t0, n);
        }
        ServedEarlier(sys.run, sys.delivered, cleanupErrors, tracker.handles[pids[i]].1, signal, old@turn(sys.Now()),
                      t0,
                      old@turn(|sys.delivered|), n);
      }
    }

    /** Signals the unreaped browser: through its pidfd, or by pid while none can
        be opened. The kernel keeps the pid for it until it is reaped. */
    method SignalBrowser(signal: int)
      requires Valid() && child.Some? && rootExit.None?
      modifies this`childFd, this`cleanupErrors, sys`k, sys`run, sys`faults, sys`delivered
      ensures Onward() && sys.Quiet() && OnlySignal(sys.delivered, old(|sys.delivered|), signal)
      ensures BrowserServed(signal, old(sys.Now()), old(|sys.delivered|))
      ensures childFd.Some? || sys.faults > old(sys.faults)
      ensures old(childFd).Some? ==> childFd == old(childFd)
    {
      if childFd.None? { var _ := OpenBrowser(); }
      label ready:
      SendBrowser(signal);
      ServedEarlier(sys.run, sys.delivered, cleanupErrors, Pidfd(child.value, browser), signal, old@ready(sys.Now()),
                    old(sys.Now()),
                    old@ready(|sys.delivered|), old(|sys.delivered|));
    }

    ghost predicate BrowserServed(signal: int, t0: nat, n: nat)
      reads this, sys
    {
      child.Some? ==> Served(sys.run, sys.delivered, cleanupErrors, Pidfd(child.value, browser), signal, t0, n)
    }

    method OpenBrowser() returns (error: Option<string>)
      requires Valid() && child.Some? && rootExit.None?
      modifies this`childFd, sys`k, sys`run, sys`faults
      ensures Onward() && sys.Quiet()
      ensures error.None? <==> sys.faults == old(sys.faults)
      ensures if error.None? then childFd.Some? else childFd == old(childFd)
    {
      var r := sys.PidfdOpen(child.value);
      Settle();
      error := None;
      if r.Fault? {
        error := Some(r.error);
      } else {
        childFd := r.value;
      }
    }

    method SendBrowser(signal: int)
      requires Valid() && child.Some? && rootExit.None?
      modifies this`cleanupErrors, sys`k, sys`run, sys`faults, sys`delivered
      ensures Onward() && sys.Quiet() && OnlySignal(sys.delivered, old(|sys.delivered|), signal)
      ensures BrowserServed(signal, old(sys.Now()), old(|sys.delivered|))
    {
      var sent;
      if childFd.Some? {
        sent := sys.Signal(childFd.value, signal);
      } else {
        sent := sys.Kill(child.value, signal);
      }
      Settle();
      UnreapedHasParent(sys.k, child.value, browser, sys.me);
      match sent {
        case Delivered =>
          SignalsPush(sys.run, old(sys.delivered), sys.me, forced, forced, child, browser,
                      Delivery(sys.Now(), child.value, browser, signal));
        case NoSuchProcess =>
        case Failed(error) =>
          cleanupErrors := cleanupErrors + {error};
      }
      ServedNow(sys.run, sys.delivered, cleanupErrors, sent, Pidfd(child.value, browser), signal, old(sys.Now()),
                old(|sys.delivered|));
    }

    /** Signals every retained descendant, and the browser while it is unreaped. If no
        process took a step until `seen`, when they were observed, none within reach is
        left out. */
    method Send(signal: int) returns (ghost seen: nat)
      requires Valid()
      modifies this`forced, this`cleanupErrors, this`childFd, tracker, sys`k, sys`run, sys`faults, sys`delivered
      ensures Onward() && sys.Quiet() && OnlySignal(sys.delivered, old(|sys.delivered|), signal)
      ensures AllServed(signal, old(sys.Now()), old(|sys.delivered|))
      ensures rootExit.None? ==> BrowserServed(signal, old(sys.Now()), old(|sys.delivered|))
      ensures old(|sys.run|) <= seen <= |sys.run|
      ensures sys.faults == old(sys.faults) && seen == old(|sys.run|) ==> AllSeen(old(sys.k))
    {
      SafeObserve();
      seen := |sys.run|;
      label observed:
      SignalHandles(signal);
      label signalled:
      if child.Some? && rootExit.None? {
        SignalBrowser(signal);
        ServedEarlier(sys.run, sys.delivered, cleanupErrors, Pidfd(child.value, browser), signal,
                      old@signalled(sys.Now()),
                      old(sys.Now()), old@signalled(|sys.delivered|), old(|sys.delivered|));
      }
      forall p | p in tracker.handles
        ensures Served(sys.run, sys.delivered, cleanupErrors, tracker.handles[p].1, signal, old(sys.Now()),
                       old(|sys.delivered|))
      {
        ServedStays(old@signalled(sys.run), sys.run, old@signalled(sys.delivered), sys.delivered,
                    old@signalled(cleanupErrors), cleanupErrors, tracker.handles[p].1, signal,
                    old@observed(sys.Now()), old@observed(|sys.delivered|));
        ServedEarlier(sys.run, sys.delivered, cleanupErrors, tracker.handles[p].1, signal, old@observed(sys.Now()),
                      old(sys.Now()),
                      old@observed(|sys.delivered|), old(|sys.delivered|));
      }
    }

    /** One turn of `running`: observe, reap, and wait for a signal. What failed is on
        record: the observation, and the wait or else the reaping. An ECHILD without
        the browser's exit code (RootExitLost) cannot happen. */
    method Tick() returns (failed: Option<string>, stop: bool, cut: bool,
                           ghost observed: Read<()>, ghost reaped: Reaping, ghost waited: Option<Read<bool>>)
      requires Valid() && child.Some? && rootExit.None?
      modifies this`rootExit, this`nonFatal, tracker, sys`k, sys`run, sys`faults, sys`stops, sys`fuel, sys`clock
      ensures Onward() && (cut || sys.fuel < old(sys.fuel)) && (cut ==> sys.fuel == 0)
      ensures failed.Some? ==> failed.value in nonFatal
      ensures observed.Fault? ==> observed.error in nonFatal
      ensures failed ==
        if waited.Some? && waited.value.Fault? then Some(waited.value.error)
        else if reaped.ReapFault? then Some(reaped.error) else None
      ensures waited.None? <==> rootExit.Some?
      ensures failed.Some? ==> sys.faults > old(sys.faults)
      ensures sys.stops == old(sys.stops) + if stop then 1 else 0
      ensures stop <==> waited == Some(Ok(true))
      ensures cut <==> reaped.Cut?
    {
      failed, stop, waited := None, false, None;
      var seen := ObserveRunning();
      var r := Reap();
      observed, reaped := seen, r;
      cut := r.Cut?;
      assert r.AllGone? ==> rootExit.Some?;
      if r.ReapFault? { failed := Some(r.error); }
      if rootExit.None? {
        var w := AwaitSignal(RUNNING_TICK);
        waited := Some(w);
        match w
        case Ok(value) => stop := value;
        case Fault(error) => failed := Some(error);
      }
      if failed.Some? { nonFatal := nonFatal + {failed.value}; }
    }

    method ObserveRunning() returns (r: Read<()>)
      requires Valid()
      modifies this`nonFatal, tracker, sys`k, sys`run, sys`faults
      ensures Onward() && sys.Quiet()
      ensures r.Fault? ==> r.error in nonFatal
      ensures r.Ok? <==> sys.faults == old(sys.faults)
    {
      r := tracker.Observe(sys);
      BrowserStays(old(sys.run), sys.run, sys.me, sys.meStart, child, childFd, rootExit, browser);
      SignalsStay(old(sys.run), sys.run, sys.delivered, sys.me, forced, child, browser);
      if r.Fault? { nonFatal := nonFatal + {r.error}; }
    }

    method AwaitSignal(limit: nat) returns (r: Read<bool>)
      requires Valid()
      modifies sys`k, sys`run, sys`faults, sys`stops, sys`clock
      ensures Onward() && sys.Quiet() && sys.clock >= old(sys.clock)
      ensures sys.faults == old(sys.faults) + if r.Fault? then 1 else 0
      ensures sys.stops == old(sys.stops) + if r == Ok(true) then 1 else 0
    {
      r := sys.Wait(limit);
      Settle();
    }

    /** Watches the browser until it exits, a stop is requested, or reaping or
        waiting has failed MAX_RUNNING_FAULTS times in a row, and no longer: `turns`
        says of each turn whether it failed. `cut`: the run under study ended while
        the guard still watched. */
    method Running() returns (failure: Option<string>, stopping: bool, cut: bool, ghost turns: seq<bool>)
      requires Valid() && child.Some? && rootExit.None?
      modifies this`rootExit, this`nonFatal, tracker, sys`k, sys`run, sys`faults, sys`stops, sys`fuel, sys`clock
      ensures Onward() && (cut ==> sys.fuel == 0)
      ensures cut || failure.Some? || stopping || rootExit.Some?
      ensures failure.Some? ==> failure.value in nonFatal
      ensures failure.Some? <==> Streak(turns) >= 8
      ensures forall i :: 0 <= i < |turns| ==> Streak(turns[..i]) < 8
      ensures failure.Some? ==> sys.faults > old(sys.faults)
      ensures sys.stops == old(sys.stops) + if stopping then 1 else 0
    {
      failure, stopping, cut, turns := None, false, false, [];
      var faults := 0;
      while rootExit.None? && !stopping && !cut && failure.None?
        invariant Onward() && (cut ==> sys.fuel == 0) && faults == Streak(turns)
        invariant failure.Some? <==> faults >= MAX_RUNNING_FAULTS
        invariant forall i :: 0 <= i < |turns| ==> Streak(turns[..i]) < MAX_RUNNING_FAULTS
        invariant failure.Some? ==> failure.value in nonFatal && sys.faults > old(sys.faults)
        invariant sys.stops == old(sys.stops) + if stopping then 1 else 0
        decreases sys.fuel, if cut then 0 else 1
      {
        var failed;
        ghost var observed, reaped, waited;
        failed, stopping, cut, observed, reaped, waited := Tick();
        faults := if failed.Some? then faults + 1 else 0;
        OneMoreTurn(turns, failed.Some?);
        turns := turns + [failed.Some?];
        if faults >= MAX_RUNNING_FAULTS { failure := failed; }
      }
    }

    method Clock() returns (now: nat)
      requires Valid()
      modifies sys`k, sys`run, sys`faults, sys`stops, sys`clock
      ensures Onward() && sys.Quiet() && now == sys.clock >= old(sys.clock)
    {
      now := sys.Time();
      Settle();
    }

    /** Since `was`, this phase's signal only, or none. */
    ghost predicate OnlyPhase(signal: Option<int>, was: seq<Delivery>)
      reads sys
    {
      && was <= sys.delivered
      && (signal.None? ==> sys.delivered == was)
      && (signal.Some? ==> OnlySignal(sys.delivered, |was|, signal.value))
    }

    /** One turn of a drain phase: it observes, until `seen`, reaps and signals. */
    method DrainTurn(signal: Option<int>) returns (gone: bool, cut: bool, ghost seen: nat)
      requires Valid()
      modifies this, tracker, sys`k, sys`run, sys`faults, sys`delivered, sys`fuel
      ensures Onward() && (cut || sys.fuel < old(sys.fuel)) && (cut ==> sys.fuel == 0)
      ensures gone ==> Childless(sys.k, sys.me) && (child.Some? ==> rootExit.Some?)
      ensures OnlyPhase(signal, old(sys.delivered))
      ensures old(|sys.run|) <= seen <= |sys.run|
      ensures (gone || signal.None?) && sys.faults == old(sys.faults) && seen == old(|sys.run|) ==> AllSeen(old(sys.k))
    {
      SafeObserve();
      seen := |sys.run|;
      gone, cut := SafeReap();
      if !gone && signal.Some? { var _ := Send(signal.value); }
    }

    /** One phase of the drain: observe and reap, signalling as it goes, until
        ECHILD or the end of the budget. It goes on to another turn only after a wait,
        asked at an instant before the deadline to end by it. */
    method Phase(signal: Option<int>, budget: nat)
      returns (gone: bool, cut: bool, ghost waits: Waits)
      requires Valid()
      modifies this, tracker, sys`k, sys`run, sys`faults, sys`stops, sys`delivered, sys`fuel, sys`clock
      ensures Onward() && (cut ==> sys.fuel == 0)
      ensures gone ==> Childless(sys.k, sys.me) && (child.Some? ==> rootExit.Some?)
      ensures OnlyPhase(signal, old(sys.delivered))
      ensures old(sys.clock) <= waits.start <= sys.clock && Within(waits, budget)
      ensures !gone && !cut ==> sys.clock >= waits.start + budget
    {
      if signal.Some? { var _ := Send(signal.value); }
      var now := Clock();
      var deadline := now + budget;
      ghost var start, asked: seq<Ask> := now, [];
      var over := false;
      gone, cut := false, false;
      while !gone && !cut && !over
        invariant Onward() && (cut ==> sys.fuel == 0)
        invariant gone ==> Childless(sys.k, sys.me) && (child.Some? ==> rootExit.Some?)
        invariant OnlyPhase(signal, old(sys.delivered))
        invariant start <= sys.clock && (over ==> sys.clock >= deadline)
        invariant forall a :: a in asked ==> start <= a.now < a.now + a.limit <= deadline && a.limit <= DRAIN_TICK
        decreases sys.fuel, if gone || cut || over then 0 else 1
      {
        ghost var ask;
        gone, cut, over, ask := PhaseTurn(signal, deadline);
        if ask.Some? { asked := asked + [ask.value]; }
      }
      waits := Waits(start, asked);
    }

    /** One turn of a phase, and the wait until the next; over at the deadline. */
    method PhaseTurn(signal: Option<int>, deadline: nat)
      returns (gone: bool, cut: bool, over: bool, ghost ask: Option<Ask>)
      requires Valid()
      modifies this, tracker, sys`k, sys`run, sys`faults, sys`stops, sys`delivered, sys`fuel, sys`clock
      ensures Onward() && (cut || sys.fuel < old(sys.fuel)) && (cut ==> sys.fuel == 0)
      ensures gone ==> Childless(sys.k, sys.me) && (child.Some? ==> rootExit.Some?)
      ensures OnlyPhase(signal, old(sys.delivered))
      ensures old(sys.clock) <= sys.clock && (over ==> sys.clock >= deadline)
      ensures ask.Some? <==> !gone && !cut && !over
      ensures ask.Some? ==>
        && old(sys.clock) <= ask.value.now < deadline
        && ask.value.limit == Min(DRAIN_TICK, deadline - ask.value.now)
    {
      ghost var seen;
      gone, cut, seen := DrainTurn(signal);
      over, ask := false, None;
      if !gone && !cut {
        var now := Clock();
        over := now >= deadline;
        if !over {
          var pause := Min(DRAIN_TICK, deadline - now);
          ask := Some(Ask(now, pause));
          var _ := AwaitSignal(pause);
        }
      }
    }

    /** The bounded drain every run takes: 500 ms for a natural end, 500 ms of
        SIGTERM, 2 s of SIGKILL. True only on the kernel's ECHILD. Deliveries before
        entry `k` are SIGTERM, from the end of the first phase on, and those after it
        SIGKILL, from the end of the second; without an ECHILD every phase takes its
        whole budget. */
    method Drain() returns (empty: bool, cut: bool, ghost gone: bool, ghost k: nat, ghost phases: seq<Waits>)
      requires Valid()
      modifies this, tracker, sys`k, sys`run, sys`faults, sys`stops, sys`delivered, sys`fuel, sys`clock
      ensures Onward() && (cut ==> sys.fuel == 0)
      ensures empty ==> Childless(sys.k, sys.me) && (child.Some? ==> rootExit.Some?)
      ensures sys.faults == old(sys.faults) && !cut && !empty ==> !Childless(sys.k, sys.me)
      ensures old(|sys.delivered|) <= k <= |sys.delivered|
      ensures OnlySignal(sys.delivered[..k], old(|sys.delivered|), 15) && OnlySignal(sys.delivered, k, 9)
      ensures |sys.delivered| > old(|sys.delivered|) ==> sys.clock >= old(sys.clock) + 500
      ensures |sys.delivered| > k ==> sys.clock >= old(sys.clock) + 1000
      ensures !gone && !cut ==> sys.clock >= old(sys.clock) + 3000 && |phases| == 3
      ensures 1 <= |phases| <= 3 && Within(phases[0], 500)
      ensures (|phases| > 1 ==> Within(phases[1], 500)) && (|phases| > 2 ==> Within(phases[2], 2000))
    {
      var done;
      ghost var waits;
      done, cut, waits := Phase(None, 500);
      k, phases := |sys.delivered|, [waits];
      if !done && !cut {
        done, cut, waits := Phase(Some(SIGTERM), 500);
        k, phases := |sys.delivered|, phases + [waits];
        if !done && !cut {
          done, cut, waits := Phase(Some(SIGKILL), 2000);
          phases := phases + [waits];
        }
      }
      gone := done;
      var cut';
      empty, cut' := SafeReap();
      cut := cut || cut';
    }

    /** Retained processes that still exist, and no other: none after an ECHILD. */
    method Remaining() returns (alive: seq<int>)
      requires Valid()
      modifies sys`k, sys`run
      ensures Onward() && sys.Quiet()
      ensures forall p :: p in alive ==> p in tracker.handles && Existed(sys.run, old(sys.Now()), tracker.handles[p].1)
      ensures forall p :: p in tracker.handles && p !in alive ==> WasGone(sys.run, old(sys.Now()), tracker.handles[p].1)
      ensures old(Childless(sys.k, sys.me)) ==> alive == [] && Childless(sys.k, sys.me)
    {
      var pids := Listed(tracker.handles.Keys);
      alive := [];
      ghost var t0 := sys.Now();
      for i := 0 to |pids|
        invariant Onward() && sys.Quiet()
        invariant forall j :: 0 <= j < |pids| ==> pids[j] in tracker.handles
        invariant Checked(sys.run, t0, tracker.handles, pids, i, alive)
        invariant old(Childless(sys.k, sys.me)) ==> alive == [] && Childless(sys.k, sys.me)
      {
        label turn:
        var still := StillThere(pids[i]);
        CheckedNext(old@turn(sys.run), sys.run, t0, old@turn(sys.Now()), tracker.handles, pids, i, alive, still);
        if still { alive := alive + [pids[i]]; }
      }
    }

    method StillThere(pid: int) returns (r: bool)
      requires Valid() && pid in tracker.handles
      modifies sys`k, sys`run
      ensures Onward() && sys.Quiet()
      ensures r ==> Existed(sys.run, old(sys.Now()), tracker.handles[pid].1)
      ensures !r ==> WasGone(sys.run, old(sys.Now()), tracker.handles[pid].1)
      ensures old(Childless(sys.k, sys.me)) ==> !r && Childless(sys.k, sys.me)
    {
      var fd := tracker.handles[pid].1;
      r := sys.Exists(fd);
      Settle();
      assert HandleOk(sys.k, pid, tracker.handles[pid].0, fd, sys.me);
      if old(Childless(sys.k, sys.me)) {
        EchildIsFinal(sys.run, sys.me, sys.meStart, |old(sys.run)| - 1, sys.Now(), pid);
      }
    }

    /** The whole run: start the browser unless a stop is already asked for, watch
        it, drain, write the receipt. `stopping`: the parent had already gone;
        `written`: the receipt could be written. `drained` is the instant of the last
        reaping.

        Exit 0 means: the browser ran and ended with its own exit code 0, no
        process ever born under the guard exists, and nothing failed. A run in which
        no system call fails, no stop is asked for and the last reaping finds no
        child does exit 0 when the browser's own code is 0. */
    method Supervise(stopping: bool, written: bool) returns (receipt: Receipt, exit: nat, cut: bool, ghost drained: nat)
      requires Valid() && child.None? && sys.delivered == [] && forced == {} && cleanupErrors == {}
      modifies this, tracker, sys
      ensures Valid() && drained < |sys.run|
      ensures receipt.rootExit.Some? ==>
        child.Some? && ExitedAs(sys.run, child.value, browser, receipt.rootExit.value)
      ensures receipt.kernelNoChildren ==>
        && (forall p :: p in sys.k.procs && sys.k.procs[p].kin ==> p == sys.me)
        && receipt.remaining == []
        && (child.Some? ==> receipt.rootExit.Some?)
      ensures receipt.complete <==> child.Some? && receipt.rootExit.Some? && receipt.kernelNoChildren
      ensures receipt.observed == |tracker.retained| && receipt.forcedCleanup == |forced|
      ensures receipt.forcedCleanup == 0 ==> forall d :: d in sys.delivered ==> child.Some? && d.birth == browser
      ensures exit == 0 <==>
        && written && receipt.complete && receipt.rootExit == Some(0)
        && receipt.error.None? && receipt.cleanupErrors == {}
      ensures exit <= 1
      ensures cut ==> sys.fuel == 0
      ensures sys.faults == old(sys.faults) ==>
        receipt.cleanupErrors == {} && receipt.nonFatalErrors == old(nonFatal)
      ensures sys.faults == old(sys.faults) && !cut ==>
        (receipt.kernelNoChildren <==> Childless(sys.run[drained], sys.me))
      ensures Ordinary(stopping) && !cut ==> child.Some? && receipt.error.None?
      ensures Ordinary(stopping) && !cut && Childless(sys.run[drained], sys.me) ==>
        receipt.complete && (exit == 0 <==> written && receipt.rootExit == Some(0))
    {
      var failure;
      ghost var pending;
      failure, cut, pending := Start(stopping);
      var cut';
      receipt, exit, cut', drained := Finish(failure, written);
      cut := cut || cut';
    }

    /** The drain, and the receipt it leaves. */
    method Finish(failure: Option<string>, written: bool)
      returns (receipt: Receipt, exit: nat, cut: bool, ghost drained: nat)
      requires Valid()
      modifies this, tracker, sys`k, sys`run, sys`faults, sys`stops, sys`delivered, sys`fuel, sys`clock
      ensures Valid() && drained < |sys.run| && child == old(child) && browser == old(browser)
      ensures old(rootExit).Some? ==> rootExit == old(rootExit)
      ensures receipt.rootExit == rootExit && receipt.error == failure
      ensures receipt.kernelNoChildren ==>
        && (forall p :: p in sys.k.procs && sys.k.procs[p].kin ==> p == sys.me)
        && receipt.remaining == [] && (child.Some? ==> rootExit.Some?)
      ensures receipt.complete <==> child.Some? && rootExit.Some? && receipt.kernelNoChildren
      ensures receipt.observed == |tracker.retained| && receipt.forcedCleanup == |forced|
      ensures receipt.cleanupErrors == cleanupErrors && receipt.nonFatalErrors == nonFatal
      ensures exit == 0 <==>
        && written && receipt.complete && receipt.rootExit == Some(0)
        && receipt.error.None? && receipt.cleanupErrors == {}
      ensures exit <= 1 && (cut ==> sys.fuel == 0)
      ensures old(sys.faults) <= sys.faults && old(sys.stops) <= sys.stops && sys.fuel <= old(sys.fuel)
      ensures sys.faults == old(sys.faults) ==> cleanupErrors == old(cleanupErrors) && nonFatal == old(nonFatal)
      ensures sys.faults == old(sys.faults) && !cut ==>
        (receipt.kernelNoChildren <==> Childless(sys.run[drained], sys.me))
    {
      var empty;
      ghost var gone, k, phases;
      empty, cut, gone, k, phases := Drain();
      drained := sys.Now();
      receipt, exit := Report(failure, empty, written);
    }

    /** No system call failed, and no stop was asked for. */
    twostate predicate Ordinary(stopping: bool)
      reads this, sys
    {
      !stopping && sys.faults == old(sys.faults) && sys.stops == old(sys.stops)
    }

    /** The receipt and exit status, after the drain. */
    method Report(failure: Option<string>, empty: bool, written: bool) returns (receipt: Receipt, exit: nat)
      requires Valid()
      requires empty ==> Childless(sys.k, sys.me)
      modifies sys`k, sys`run
      ensures Valid() && old(sys.run) <= sys.run
      ensures receipt.rootExit == rootExit && receipt.kernelNoChildren == empty && receipt.error == failure
      ensures receipt.cleanupErrors == cleanupErrors && receipt.nonFatalErrors == nonFatal
      ensures receipt.complete <==> child.Some? && rootExit.Some? && empty
      ensures receipt.observed == |tracker.retained| && receipt.forcedCleanup == |forced|
      ensures empty ==> receipt.remaining == [] && forall p :: p in sys.k.procs && sys.k.procs[p].kin ==> p == sys.me
      ensures forall p :: p in receipt.remaining ==>
        p in tracker.handles && Existed(sys.run, old(sys.Now()), tracker.handles[p].1)
      ensures exit == 0 <==>
        written && receipt.complete && rootExit == Some(0) && failure.None? && cleanupErrors == {}
      ensures exit <= 1
    {
      var complete := child.Some? && rootExit.Some? && empty;
      var normal := complete && rootExit == Some(0) && failure.None? && cleanupErrors == {};
      ghost var i := sys.Now();
      var alive := Remaining();
      receipt := Receipt(rootExit, complete, alive, empty, tracker.observed, |forced|, failure, cleanupErrors,
                         nonFatal);
      exit := if written && normal then 0 else 1;
      if empty {
        forall p | p in sys.k.procs && sys.k.procs[p].kin
          ensures p == sys.me
        {
          EchildMeansNoKin(sys.run, sys.me, sys.meStart, i, sys.Now(), p);
        }
      }
    }

    /** Everything before the drain; `pending`: a stop was asked for before the start,
        which starts nothing. */
    method Start(stopping: bool) returns (failure: Option<string>, cut: bool, ghost pending: bool)
      requires Valid() && child.None?
      modifies this`child, this`childFd, this`rootExit, this`nonFatal, this`browser, tracker
      modifies sys`k, sys`run, sys`faults, sys`stops, sys`fuel, sys`clock
      ensures Valid() && sys.delivered == old(sys.delivered)
      ensures old(sys.faults) <= sys.faults && old(sys.stops) <= sys.stops
      ensures child.None? ==> failure.Some?
      ensures rootExit.Some? ==> child.Some?
      ensures (cut ==> sys.fuel == 0) && (sys.faults == old(sys.faults) ==> nonFatal == old(nonFatal))
      ensures pending || stopping ==> child.None?
      ensures pending ==> sys.stops > old(sys.stops)
      ensures (pending || stopping) && sys.faults == old(sys.faults) ==> failure == Some("StopRequestedBeforeStart")
      ensures Ordinary(stopping) ==> !pending && failure.None? && child.Some? && (cut || rootExit.Some?)
    {
      cut := false;
      var waited := AwaitSignal(0);
      pending := waited == Ok(true);
      match waited
      case Fault(error) =>
        failure := Some(error);
      case Ok(stop) =>
        if stop || stopping {
          failure := Some("StopRequestedBeforeStart");
        } else {
          failure := Launch();
          if failure.None? {
            OpenChild();
            var stopped;
            ghost var turns;
            failure, stopped, cut, turns := Running();
          }
        }
    }

    /** The browser's pidfd right after its start; a failure is only noted. */
    method OpenChild()
      requires Valid() && child.Some? && rootExit.None?
      modifies this`childFd, this`nonFatal, sys`k, sys`run, sys`faults
      ensures Onward() && sys.Quiet()
      ensures if sys.faults == old(sys.faults) then childFd.Some? else nonFatal != {}
    {
      var error := OpenBrowser();
      if error.Some? { nonFatal := nonFatal + {error.value}; }
    }

    /** Starts the browser: a new child of the guard, unreaped. */
    method Launch() returns (failure: Option<string>)
      requires Valid() && child.None?
      modifies this`child, this`browser, sys`k, sys`run, sys`faults
      ensures Valid()
      ensures failure.None? <==> child.Some?
      ensures failure.None? <==> sys.faults == old(sys.faults)
      ensures old(sys.faults) <= sys.faults && rootExit.None?
    {
      var r := sys.Spawn();
      KeptStays(sys.run, sys.me, sys.meStart, old(sys.Now()), sys.Now(), tracker.handles, tracker.retained);
      match r
      case Fault(error) =>
        SignalsStay(old(sys.run), sys.run, sys.delivered, sys.me, forced, child, browser);
        failure := Some(error);
      case Ok(pid) =>
        failure := None;
        child, browser := Some(pid), sys.k.procs[pid].birth;
        SignalsStay(old(sys.run), sys.run, sys.delivered, sys.me, forced, child, browser);
    }
  }
}
