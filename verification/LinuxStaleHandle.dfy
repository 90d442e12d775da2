/** How far "every kept handle names an owned process" holds (guard_main.rs). */
module LinuxStaleHandle {
  import opened LinuxKernel
  import opened LinuxGuard

  /** What `observe` saw before it kept the pidfd of process `birth`: the pid was a
      child below the guard at `s`, showed `start` at `a`, was opened at `b`, showed
      `start` again at `c`, and was owned at `t`. */
  ghost predicate Retained(run: seq<Kernel>, g: int, gs: nat, s: nat, a: nat, b: nat, c: nat, t: nat,
                           pid: int, start: nat, birth: nat) {
    && Run(run, g, gs)
    && pid != g
    && s <= a <= b <= c <= t < |run|
    && UnderAt(run, s, pid, g)
    && ShowsAt(run, a, pid, start)
    && Holds(run[b], pid, birth)
    && ShowsAt(run, c, pid, start)
    && UnderAt(run, t, pid, g)
  }

  /** The handle's process is the one the walk found owned. */
  ghost predicate OwnedAtWalk(run: seq<Kernel>, g: int, t: nat, pid: int, birth: nat) {
    t < |run| && Holds(run[t], pid, birth) && UnderAt(run, t, pid, g)
  }

  /** The handle's process was below the guard at some instant at all. */
  ghost predicate EverOwned(run: seq<Kernel>, g: int, pid: int, birth: nat) {
    exists i :: 0 <= i < |run| && Holds(run[i], pid, birth) && UnderAt(run, i, pid, g)
  }

  /** The handle names the process the walk found owned exactly when the walk saw the
      same start time; otherwise its process is already gone. */
  lemma OwnedIffSameStart(run: seq<Kernel>, g: int, gs: nat, s: nat, a: nat, b: nat, c: nat, t: nat,
                          pid: int, start: nat, birth: nat)
    requires Retained(run, g, gs, s, a, b, c, t, pid, start, birth)
    ensures OwnedAtWalk(run, g, t, pid, birth) <==> run[t].procs[pid].start == start
    ensures !OwnedAtWalk(run, g, t, pid, birth) ==> forall j :: t <= j < |run| ==> !Holds(run[j], pid, birth)
  {
    SameProcessBetween(run, g, gs, a, b, c, pid);
    NamedNow(run, g, gs, a, pid);
    NameOverTime(run, g, gs, a, t, pid, start, birth);
    if run[t].procs[pid].start != start {
      forall j | t <= j < |run|
        ensures !Holds(run[j], pid, birth)
      {
        GoneStaysGone(run, g, gs, t, j, pid, birth);
      }
    }
  }

  /** The reaper of a process is the guard or below it only if the process is below. */
  lemma {:induction false} ReaperOnlyUnder(k: Kernel, p: int, g: int)
    requires WellFormed(k) && p in k.procs && Under(k, Reaper(k, p), g)
    ensures Under(k, p, g)
    decreases k.procs[p].birth
  {
    if p != INIT {
      assert ProcOk(k, p);
      var q := k.procs[p].parent;
      if q != INIT && !k.procs[q].subreaper { ReaperOnlyUnder(k, q, g); }
    }
  }

  /** No step brings an existing process into the guard's subtree. */
  lemma {:induction false} NextBringsNone(k: Kernel, k': Kernel, g: int, gs: nat, p: int)
    requires GuardUp(k, g, gs) && Next(k, k', g) && WellFormed(k')
    requires p in k.procs && Under(k', p, g)
    ensures Under(k, p, g)
    decreases k'.procs[p].birth
  {
    if p != g {
      var s := NextParentLink(k, k', g, p);
      assert ProcOk(k, p) && ProcOk(k', p);
      NextBringsNone(k, k', g, gs, k'.procs[p].parent);
      if s.Exit? && s.pid == k.procs[p].parent { ReaperOnlyUnder(k, s.pid, g); }
    }
  }

  /** Who is below the guard was below it as long as it existed. */
  lemma {:induction false} AlwaysUnderBefore(run: seq<Kernel>, g: int, gs: nat, i: nat, j: nat, p: int)
    requires Run(run, g, gs) && i <= j < |run| && GuardUp(run[i], g, gs) && GuardUp(run[j], g, gs)
    requires p in run[i].procs && Holds(run[j], p, run[i].procs[p].birth) && Under(run[j], p, g)
    ensures Under(run[i], p, g)
    decreases j - i
  {
    if i < j {
      RunKeepsGuard(run, g, gs, j - 1);
      ExistsBetween(run, g, gs, i, j - 1, j, p);
      assert Next(run[j - 1], run[j - 1 + 1], g);
      NextBringsNone(run[j - 1], run[j], g, gs, p);
      AlwaysUnderBefore(run, g, gs, i, j - 1, p);
    }
  }

  /** The handle names a process that was ever owned exactly when it was owned at
      the instant of the opening. */
  lemma EverOwnedIffAtOpening(run: seq<Kernel>, g: int, gs: nat, s: nat, a: nat, b: nat, c: nat, t: nat,
                              pid: int, start: nat, birth: nat)
    requires Retained(run, g, gs, s, a, b, c, t, pid, start, birth)
    ensures EverOwned(run, g, pid, birth) <==> UnderAt(run, b, pid, g)
  {
    RunKeepsGuard(run, g, gs, b);
    if EverOwned(run, g, pid, birth) {
      var i :| 0 <= i < |run| && Holds(run[i], pid, birth) && UnderAt(run, i, pid, g);
      RunKeepsGuard(run, g, gs, i);
      if i <= b {
        OnceUnderAlwaysUnder(run, g, gs, i, b, pid);
      } else {
        AlwaysUnderBefore(run, g, gs, b, i, pid);
      }
    }
  }

  // The run below: guard 10, browser 30, and three processes in turn under pid 20:
  // a helper of the browser, a child of init, and another helper.

  function Without20(born: nat, used: set<(int, nat)>): Kernel {
    Kernel(map[INIT := Proc(0, 0, 0, Live, true, false),
               10 := Proc(1, 5, INIT, Live, true, true),
               30 := Proc(2, 6, 10, Live, false, true)], born, used)
  }

  function With20(born: nat, used: set<(int, nat)>, p: Proc): Kernel {
    Without20(born, used).(procs := Without20(born, used).procs[20 := p])
  }

  /** Pid 20 is taken by a new child of `parent`. */
  lemma Takes20(born: nat, used: set<(int, nat)>, parent: int, start: nat)
    requires born > 2 && {(INIT, 0), (10, 5), (30, 6)} <= used && (20, start) !in used && parent in {INIT, 30}
    ensures GuardUp(Without20(born, used), 10, 5)
    ensures
      var k' := With20(born + 1, used + {(20, start)}, Proc(born, start, parent, Live, false, parent == 30));
      Next(Without20(born, used), k', 10) && GuardUp(k', 10, 5)
  {
    var k, s := Without20(born, used), Fork(parent, false, 20, start);
    var k' := With20(born + 1, used + {(20, start)}, Proc(born, start, parent, Live, false, parent == 30));
    assert WellFormed(k);
    assert OtherStep(k, k', 10) by { assert Enabled(k, s) && Actor(k, s) != 10 && Effect(k, s, k'); }
    NextKeepsGuard(k, k', 10, 5);
  }

  /** The process under pid 20 ends and is reaped by its parent. */
  lemma Leaves20(born: nat, used: set<(int, nat)>, p: Proc)
    requires p.life == Live && p.parent in {INIT, 30}
    requires GuardUp(With20(born, used, p), 10, 5)
    ensures
      var k' := With20(born, used, p.(life := Zombie(0)));
      Next(With20(born, used, p), k', 10) && GuardUp(k', 10, 5) && Next(k', Without20(born, used), 10)
  {
    var k, s := With20(born, used, p), Exit(20, 0);
    var k', s' := With20(born, used, p.(life := Zombie(0))), Reap(20);
    assert OtherStep(k, k', 10) by { assert Enabled(k, s) && Actor(k, s) != 10 && Effect(k, s, k'); }
    NextKeepsGuard(k, k', 10, 5);
    var k'' := Without20(born, used);
    assert k''.procs == k'.procs - {20};
    assert OtherStep(k', k'', 10) by { assert Enabled(k', s') && Actor(k', s') != 10 && Effect(k', s', k''); }
  }

  const U0 := {(INIT, 0), (10, 5), (30, 6)}
  const U1 := U0 + {(20, 7)}
  const U2 := U1 + {(20, 8)}
  const U3 := U2 + {(20, 9)}
  const HELPER := Proc(3, 7, 30, Live, false, true)
  const STRANGER := Proc(4, 8, INIT, Live, false, false)
  const ANOTHER := Proc(5, 9, 30, Live, false, true)

  function History(): (run: seq<Kernel>)
    ensures |run| == 9
  {
    [Kernel(map[INIT := Proc(0, 0, 0, Live, true, false), 10 := Proc(1, 5, INIT, Live, true, true)], 2,
            {(INIT, 0), (10, 5)}),
     Without20(3, U0), With20(4, U1, HELPER), With20(4, U1, HELPER.(life := Zombie(0))),
     Without20(4, U1), With20(5, U2, STRANGER), With20(5, U2, STRANGER.(life := Zombie(0))),
     Without20(5, U2), With20(6, U3, ANOTHER)]
  }

  lemma HistoryStep(i: nat)
    requires i < 8
    ensures Next(History()[i], History()[i + 1], 10)
  {
    if i == 0 { Launched(History()[0], U0); }
    if i == 1 || i == 2 || i == 3 { Takes20(3, U0, 30, 7); }
    if i == 2 || i == 3 { Leaves20(4, U1, HELPER); }
    if i == 4 || i == 5 || i == 6 { Takes20(4, U1, INIT, 8); }
    if i == 5 || i == 6 { Leaves20(5, U2, STRANGER); }
    if i == 7 { Takes20(5, U2, 30, 9); }
  }

  lemma HistoryRuns()
    ensures Run(History(), 10, 5)
  {
    Launched(History()[0], U0);
    forall i | 0 <= i < 8 ensures Next(History()[i], History()[i + 1], 10) {
      HistoryStep(i);
    }
  }

  lemma HistoryRetains()
    ensures Retained(History(), 10, 5, 2, 5, 5, 5, 8, 20, 8, 4)
  {
    HistoryRuns();
    var run := History();
    RunKeepsGuard(run, 10, 5, 2);
    RunKeepsGuard(run, 10, 5, 8);
    assert Under(run[2], 10, 10) && Under(run[8], 10, 10);
    assert Under(run[2], 30, 10) && Under(run[8], 30, 10);
  }

  /** Both can fail: between the second start-time read and the ownership walk the
      pid can pass from a stranger back to a descendant. */
  lemma StrangerHandle()
    ensures exists run, g, gs, s, a, b, c, t, pid, start, birth ::
      && Retained(run, g, gs, s, a, b, c, t, pid, start, birth)
      && !OwnedAtWalk(run, g, t, pid, birth) && !EverOwned(run, g, pid, birth)
  {
    HistoryRetains();
    var run := History();
    assert !EverOwned(run, 10, 20, 4) by {
      forall i | 0 <= i < |run| && Holds(run[i], 20, 4)
        ensures !UnderAt(run, i, 20, 10)
      {
        assert i == 5 || i == 6;
        if WellFormed(run[i]) { assert !Under(run[i], INIT, 10); }
      }
    }
  }

  lemma Launched(k0: Kernel, used: set<(int, nat)>)
    requires k0 == Kernel(map[INIT := Proc(0, 0, 0, Live, true, false), 10 := Proc(1, 5, INIT, Live, true, true)],
                          2, {(INIT, 0), (10, 5)})
    requires used == {(INIT, 0), (10, 5), (30, 6)}
    ensures GuardUp(k0, 10, 5) && Next(k0, Without20(3, used), 10)
  {
    var s := Fork(10, false, 30, 6);
    assert WellFormed(k0);
    var k := Without20(3, used);
    assert OwnStep(k0, k, 10) by { assert Enabled(k0, s) && Actor(k0, s) == 10 && Effect(k0, s, k); }
  }
}
