/** The Windows guard's drain, count and receipt (guard_windows.rs), while the
    processes in the job come and go. */
module WindowsGuard {
  import opened Common
  import opened WindowsJob

  /** The clock counts units of 100 ns, and moves only while the guard waits. */
  const MS := 10_000
  const NATURAL := 500 * MS
  const FORCED := 2000 * MS
  const DRAIN_TICK := 20 * MS
  const SIGNAL_GRACE := 50 * MS
  const FAULT_PAUSE := 250 * MS
  const MAX_RUNNING_FAULTS := 8

  lemma Durations()
    ensures MS == 10_000 && NATURAL == 5_000_000 && FORCED == 20_000_000 && DRAIN_TICK == 200_000
    ensures SIGNAL_GRACE == 500_000 && FAULT_PAUSE == 2_500_000
  {
  }

  datatype Io<+T> = Ok(value: T) | Err(fault: string)

  /** Exit codes are shown signed: NTSTATUS values are negative. */
  function Signed(code: nat): int {
    if code < 0x8000_0000 then code else code - 0x1_0000_0000
  }

  /** A 32-bit code as the signed number of the same bits. */
  lemma SignedCode(code: nat)
    requires code < 0x1_0000_0000
    ensures -0x8000_0000 <= Signed(code) < 0x8000_0000 && (Signed(code) - code) % 0x1_0000_0000 == 0
    ensures Signed(FORCED_EXIT) == -536841118
  {
  }

  datatype Receipt = Receipt(
    rootExit: Option<int>,
    complete: bool,
    remaining: seq<nat>,
    kernelNoChildren: bool,
    observed: nat,
    forcedCleanup: nat,
    error: Option<string>,
    cleanupErrors: set<string>,
    nonFatalErrors: set<string>)

  class Run {
    var procs: Job
    var clock: nat
    /** The browser: the first process of the job. */
    var child: Option<nat>
    var rootExit: Option<nat>
    var forced: nat
    var cleanupErrors: set<string>
    var nonFatal: set<string>
    /** The job held more processes than a list has room for when it was listed. */
    ghost var crowded: bool
    /** How many system calls have failed. */
    ghost var faults: nat
    /** How many waits saw a stop request. */
    ghost var stops: nat

    constructor ()
      ensures Valid() && procs == [] && child.None? && forced == 0 && cleanupErrors == {} && !crowded
      ensures rootExit.None? && nonFatal == {} && faults == 0
    {
      procs, clock, child, rootExit, forced, cleanupErrors, nonFatal := [], 0, None, None, 0, {}, {};
      crowded, faults, stops := false, 0, 0;
    }

    ghost predicate Valid()
      reads this
    {
      && JobOk(procs)
      && (child.Some? ==> child.value < |procs|)
      && (rootExit.Some? ==> child.Some? && procs[child.value].code == rootExit && procs[child.value].signaled)
    }

    predicate BrowserDone()
      reads this
    {
      child.None? || rootExit.Some?
    }

    /** What the drain waits for: the browser, if any, has exited and the job is empty. */
    ghost predicate AtRest(j: Job)
      reads this
    {
      (child.Some? ==> child.value < |j| && j[child.value].signaled) && Empty(j)
    }

    /** Every call that failed since then is on record as a cleanup error, and
        nothing else is. */
    twostate predicate Recorded()
      reads this
    {
      && old(faults) <= faults && old(cleanupErrors) <= cleanupErrors
      && (faults == old(faults) ==> cleanupErrors == old(cleanupErrors))
      && (faults > old(faults) ==> cleanupErrors != {})
    }

    // --- The kernel --------------------------------------------------------------------------

    /** Processes end by themselves and start others. */
    method Others()
      requires Valid()
      modifies `procs
      ensures Valid() && Evolves(old(procs), procs)
    {
    }

    method Processes() returns (r: Io<(nat, nat)>)
      requires Valid()
      modifies `procs, `faults
      ensures Valid() && Evolves(old(procs), procs)
      ensures r.Ok? ==> r.value == (|procs|, Active(procs))
      ensures faults == old(faults) + if r.Ok? then 0 else 1
    {
      Others();
      if * {
        r := Ok((|procs|, Active(procs)));
      } else {
        r := Err("accounting");
        faults := faults + 1;
      }
    }

    method ProcessIds() returns (r: Io<seq<nat>>)
      requires Valid()
      modifies `procs, `faults
      ensures Valid() && Evolves(old(procs), procs)
      ensures r.Ok? ==> Lists(procs, r.value)
      ensures faults == old(faults) + if r.Ok? then 0 else 1
    {
      Others();
      if Empty(procs) {
        assert Members(procs) == {};
        r := Ok([]);
      } else {
        r := Err("list");
        faults := faults + 1;
      }
    }

    method OpenProcess(pid: nat) returns (o: Opened)
      requires Valid()
      modifies `procs, `faults
      ensures Valid() && Evolves(old(procs), procs) && Opens(procs, pid, o)
      ensures faults == old(faults) + if o.Denied? then 1 else 0
    {
      Others();
      for i := 0 to |procs| {
        if procs[i].inJob && procs[i].pid == pid { return Handle(Some(i)); }
      }
      o := Denied;
      faults := faults + 1;
    }

    /** Ends every member, or fails on the way. `mid` is the job just before. */
    method Terminate() returns (r: Io<()>, ghost mid: Job)
      requires Valid()
      modifies `procs, `faults
      ensures Valid() && Evolves(old(procs), mid)
      ensures |procs| == |mid| && forall i :: 0 <= i < |mid| ==> procs[i] == mid[i] || procs[i] == Ended(mid[i])
      ensures r.Ok? ==> procs == Terminated(mid)
      ensures faults == old(faults) + if r.Ok? then 0 else 1
    {
      Others();
      mid := procs;
      if * {
        r := Ok(());
        procs := Terminated(procs);
      } else {
        r := Err("terminate");
        faults := faults + 1;
      }
    }

    /** GetExitCodeProcess. */
    method ExitCodeNow(who: Option<nat>) returns (r: Io<nat>)
      requires Valid() && (who.Some? ==> who.value < |procs|)
      modifies `procs, `faults
      ensures Valid() && Evolves(old(procs), procs)
      ensures faults == old(faults) + if r.Ok? then 0 else 1
      ensures r.Ok? && who.Some? ==>
        r.value == if procs[who.value].code.Some? then procs[who.value].code.value else STILL_ACTIVE
    {
      Others();
      if who.None? {
        var code: nat := *;
        r := Ok(code);
      } else {
        r := Ok(if procs[who.value].code.Some? then procs[who.value].code.value else STILL_ACTIVE);
      }
      if * {
        r := Err("code");
        faults := faults + 1;
      }
    }

    /** Waits for the handle, no longer than `within`; a wait for one that is not
        signaled takes all of its whole milliseconds. */
    method Signaled(who: Option<nat>, within: nat) returns (r: Io<bool>)
      requires Valid() && (who.Some? ==> who.value < |procs|)
      modifies `procs, `clock, `faults
      ensures Valid() && Evolves(old(procs), procs)
      ensures r.Ok? && who.Some? ==> r.value == procs[who.value].signaled
      ensures faults == old(faults) + if r.Ok? then 0 else 1
      ensures old(clock) <= clock <= old(clock) + within && (r == Ok(false) ==> clock + MS > old(clock) + within)
    {
      Others();
      clock := clock + within;
      if * {
        r := Err("wait");
        faults := faults + 1;
      } else {
        r := Ok(who.Some? && procs[who.value].signaled);
      }
    }

    /** Sleeps, unless the browser's exit wakes it earlier. */
    method Pause(d: nat)
      requires Valid() && d > 0
      modifies `procs, `clock
      ensures Valid() && Evolves(old(procs), procs) && old(clock) < clock <= old(clock) + d
    {
      Others();
      clock := clock + d;
    }

    method Sleep(d: nat)
      requires Valid()
      modifies `procs, `clock
      ensures Valid() && Evolves(old(procs), procs) && clock >= old(clock) + d
    {
      Others();
      clock := clock + d;
    }

    // --- Reading an end --------------------------------------------------------------------------

    /** Whether a held process's handle is signaled, and then its code, again after
        `grace` for one just about to be signaled. `at` is when the code was read. */
    method ExitRead(o: Opened, grace: nat) returns (r: Reading, ghost at: Job)
      requires Valid() && o.Handle? && (o.who.Some? ==> o.who.value < |procs|)
      modifies `procs, `clock, `faults
      ensures Valid() && ReadBetween(old(procs), procs, o, at, r) && r.Read?
      ensures old(clock) <= clock <= old(clock) + grace
      ensures r.code == Some(STILL_ACTIVE) && !r.signaled ==> clock + MS > old(clock) + grace
      ensures old(faults) <= faults && (faults == old(faults) <==> r.code.Some?)
    {
      label start:
      var first := Signaled(o.who, 0);
      label first:
      if first.Err? {
        r, at := Read(None, false), procs;
      } else {
        var code := ExitCodeNow(o.who);
        Through(old@start(procs), old@first(procs), procs, o.who);
        if code.Err? {
          r, at := Read(None, false), procs;
        } else if code.value == STILL_ACTIVE && !first.value && grace != 0 {
          label again:
          var later := Signaled(o.who, grace);
          label later:
          Through(old@start(procs), old@again(procs), procs, o.who);
          if later.Err? {
            r, at := Read(None, false), procs;
          } else {
            var code' := ExitCodeNow(o.who);
            Through(old@start(procs), old@later(procs), procs, o.who);
            r, at := Read(if code'.Ok? then Some(code'.value) else None, later.value), procs;
          }
        } else {
          r, at := Read(Some(code.value), first.value), procs;
        }
      }
    }

    // --- Waiting for the job to empty ---------------------------------------------------------------

    /** Records the browser's exit code once it has exited. */
    method Reap()
      requires Valid()
      modifies `procs, `rootExit, `cleanupErrors, `faults
      ensures Valid() && Evolves(old(procs), procs) && Recorded()
      ensures old(rootExit).Some? ==> rootExit == old(rootExit)
      ensures faults == old(faults) && child.Some? && procs[child.value].signaled ==> rootExit.Some?
    {
      Others();
      if rootExit.None? && child.Some? {
        if * {
          cleanupErrors := cleanupErrors + {"wait"};
          faults := faults + 1;
        } else if procs[child.value].signaled {
          rootExit := procs[child.value].code;
        }
      }
    }

    /** Whether the browser has exited and the job is empty: then it stays so. */
    method Settled() returns (done: bool)
      requires Valid()
      modifies `procs, `rootExit, `cleanupErrors, `faults
      ensures Valid() && Evolves(old(procs), procs) && Recorded()
      ensures done ==> BrowserDone() && Empty(procs)
      ensures faults == old(faults) && old(AtRest(procs)) ==> done
      ensures old(rootExit).Some? ==> rootExit == old(rootExit)
    {
      Reap();
      done := false;
      if BrowserDone() {
        label reaped:
        var r := Processes();
        Through(old(procs), old@reaped(procs), procs, None);
        if r.Err? {
          cleanupErrors := cleanupErrors + {r.fault};
        } else if r.value.1 == 0 {
          EmptyIffInactive(procs);
          done := true;
        }
      }
    }

    /** Waits until `deadline` for that, and no longer. `busy` is the job at the last
        check that did not find it at rest, which began at `asked`. */
    method SettleUntil(deadline: nat) returns (done: bool, ghost busy: Job, ghost asked: nat)
      requires Valid()
      modifies `procs, `clock, `rootExit, `cleanupErrors, `faults
      ensures Valid() && Evolves(old(procs), procs) && Recorded()
      ensures done ==> BrowserDone() && Empty(procs)
      ensures old(clock) <= clock <= Max(old(clock), deadline)
      ensures clock <= asked + DRAIN_TICK && (!done ==> clock == asked >= deadline)
      ensures old(rootExit).Some? ==> rootExit == old(rootExit)
      ensures Evolves(old(procs), busy) && Evolves(busy, procs)
      ensures faults == old(faults) && (!done || clock > old(clock)) ==> !AtRest(busy)
    {
      busy, asked := procs, clock;
      done := Settled();
      while !done && clock < deadline
        invariant Valid() && Evolves(old(procs), procs) && Recorded()
        invariant done ==> BrowserDone() && Empty(procs)
        invariant old(clock) <= clock <= Max(old(clock), deadline)
        invariant clock <= asked + DRAIN_TICK && (!done ==> clock == asked)
        invariant old(rootExit).Some? ==> rootExit == old(rootExit)
        invariant Evolves(old(procs), busy) && Evolves(busy, procs)
        invariant faults == old(faults) && (!done || clock > old(clock)) ==> !AtRest(busy)
        decreases deadline - clock
      {
        label turn:
        Pause(Min(DRAIN_TICK, deadline - clock));
        label paused:
        done := Settled();
        Through(old@turn(procs), old@paused(procs), procs, None);
        Through(old(procs), old@turn(procs), procs, None);
        if done {
          Through(busy, old@turn(procs), procs, None);
        } else {
          Through(old(procs), old@turn(procs), old@paused(procs), None);
          busy, asked := old@paused(procs), clock;
        }
      }
    }

    // --- The forced count --------------------------------------------------------------------------

    /** As `Recorded`, where what is counted had already failed to open or to be read. */
    twostate predicate Noted(held: seq<Opened>, already: bool)
      reads this
    {
      && old(faults) <= faults && old(cleanupErrors) <= cleanupErrors
      && (faults == old(faults) && !already && Denied !in held ==> cleanupErrors == old(cleanupErrors))
      && (faults > old(faults) || already || Denied in held ==> cleanupErrors != {})
    }

    /** Counts the held processes that were forced, and every process that entered
        after the total was read. Waits never go past `emptyUntil`. */
    method CountForced(held: seq<Opened>, total: Io<nat>, emptyUntil: Option<nat>)
      returns (ghost readAt: seq<Job>, ghost readings: seq<Reading>)
      requires Valid() && (total.Ok? ==> total.value <= |procs|)
      requires forall k :: 0 <= k < |held| && held[k].Handle? && held[k].who.Some? ==> held[k].who.value < |procs|
      modifies `procs, `clock, `forced, `cleanupErrors, `faults
      ensures Valid() && Evolves(old(procs), procs)
      ensures ReadThrough(old(procs), procs, held, readAt, readings)
      ensures Noted(held, total.Err?) && (cleanupErrors == {} ==> total.Ok?)
      ensures cleanupErrors == {} ==>
        && (forall k :: 0 <= k < |held| ==> !Failed(readings[k]))
        && forced == old(forced) + ForcedCount(readings) + |procs| - total.value
      ensures old(clock) <= clock
      ensures clock <= match emptyUntil { case None => old(clock) case Some(end) => Max(old(clock), end) }
    {
      readAt, readings := CountHeld(held, emptyUntil);
      label counted:
      var after := Processes();
      ReadLater(old(procs), old@counted(procs), procs, held, readAt, readings);
      if total.Ok? && after.Ok? {
        forced := forced + (after.value.0 - total.value);
      } else {
        cleanupErrors := cleanupErrors + {"ForcedCleanupUnknown"};
      }
    }

    method CountHeld(held: seq<Opened>, emptyUntil: Option<nat>)
      returns (ghost readAt: seq<Job>, ghost readings: seq<Reading>)
      requires Valid()
      requires forall k :: 0 <= k < |held| && held[k].Handle? && held[k].who.Some? ==> held[k].who.value < |procs|
      modifies `procs, `clock, `forced, `cleanupErrors, `faults
      ensures Valid() && Evolves(old(procs), procs)
      ensures ReadThrough(old(procs), procs, held, readAt, readings)
      ensures Noted(held, false)
      ensures cleanupErrors == {} ==> forall k :: 0 <= k < |held| ==> !Failed(readings[k])
      ensures forced == old(forced) + ForcedCount(readings)
      ensures old(clock) <= clock
      ensures clock <= match emptyUntil { case None => old(clock) case Some(end) => Max(old(clock), end) }
    {
      readAt, readings := [], [];
      ghost var start := clock;
      ghost var end := match emptyUntil { case None => clock case Some(end) => Max(clock, end) };
      for k := 0 to |held|
        invariant Valid() && Evolves(old(procs), procs) && Noted(held[..k], false)
        invariant ReadThrough(old(procs), procs, held[..k], readAt, readings)
        invariant forced == old(forced) + ForcedCount(readings)
        invariant cleanupErrors == {} ==> forall q :: 0 <= q < k ==> !Failed(readings[q])
        invariant start <= clock <= end
      {
        label turn:
        var grace := if emptyUntil.None? then 0 else Min(SIGNAL_GRACE, Max(emptyUntil.value - clock, 0));
        ghost var at, r := CountOne(held[k], grace);
        ReadOneMore(old(procs), old@turn(procs), procs, held, k, readAt, readings, at, r);
        readAt, readings := readAt + [at], readings + [r];
      }
    }

    /** Reads one process and counts it if it was forced. */
    method CountOne(o: Opened, grace: nat) returns (ghost at: Job, ghost r: Reading)
      requires Valid() && (o.Handle? && o.who.Some? ==> o.who.value < |procs|)
      modifies `procs, `clock, `forced, `cleanupErrors, `faults
      ensures Valid() && ReadBetween(old(procs), procs, o, at, r)
      ensures old(clock) <= clock <= old(clock) + grace
      ensures r == Read(Some(STILL_ACTIVE), false) ==> clock + MS > old(clock) + grace
      ensures forced == old(forced) + if CountsAsForced(r) then 1 else 0
      ensures Noted([o], false) && (Failed(r) ==> cleanupErrors != {})
    {
      var reading;
      reading, at := ReadOne(o, grace);
      r := reading;
      Tally(reading);
    }

    method Tally(r: Reading)
      modifies `forced, `cleanupErrors
      ensures forced == old(forced) + if CountsAsForced(r) then 1 else 0
      ensures old(cleanupErrors) <= cleanupErrors
      ensures if Failed(r) then cleanupErrors != {} else cleanupErrors == old(cleanupErrors)
    {
      if r.Read? {
        match Classify(r.code, r.signaled) {
          case Forced => forced := forced + 1;
          case ByItself =>
          case Unknown => cleanupErrors := cleanupErrors + {"ForcedCleanupUnknown"};
        }
      }
    }

    method ReadOne(o: Opened, grace: nat) returns (r: Reading, ghost at: Job)
      requires Valid() && (o.Handle? && o.who.Some? ==> o.who.value < |procs|)
      modifies `procs, `clock, `faults
      ensures Valid() && ReadBetween(old(procs), procs, o, at, r)
      ensures old(clock) <= clock <= old(clock) + grace
      ensures r == Read(Some(STILL_ACTIVE), false) ==> clock + MS > old(clock) + grace
      ensures old(faults) <= faults && (Failed(r) <==> o.Denied? || faults > old(faults))
    {
      at := procs;
      match o {
        case Gone => r := Skipped;
        case Denied => r := Read(None, false);
        case Handle(_) => r, at := ExitRead(o, grace);
      }
    }

    // --- The drain -------------------------------------------------------------------------------------

    /** The bounded drain of every run: half a second for the job to empty by itself,
        then, if `seen` then still held a process, the termination and two seconds
        more. `d` is the termination and the count, if it came to that. */
    method Drain() returns (empty: bool, ghost seen: Job, ghost d: Option<WindowsJob.Drain>)
      requires Valid() && Killed(procs) == {} && forced == 0 && !crowded
      modifies this
      ensures Valid() && child == old(child) && nonFatal == old(nonFatal) && stops == old(stops) && Recorded()
      ensures old(rootExit).Some? ==> rootExit == old(rootExit)
      ensures empty ==> BrowserDone() && Empty(procs)
      ensures old(clock) <= clock <= old(clock) + 2_500 * MS && (!empty ==> clock == old(clock) + 2_500 * MS)
      ensures faults == old(faults) && old(AtRest(procs)) ==> empty && clock == old(clock)
      ensures Evolves(old(procs), seen)
      ensures if d.None? then Evolves(seen, procs) && forced == 0 && Killed(procs) == {}
              else clock >= old(clock) + 500 * MS && d.value.last == procs
      ensures faults == old(faults) ==> (d.Some? <==> !Empty(seen))
      ensures d.Some? && cleanupErrors == {} ==> forced == Reported(d.value)
      ensures d.Some? && cleanupErrors == {} && !crowded ==> DrainOk(d.value) && NoFailure(d.value)
      ensures cleanupErrors == {} && !crowded ==> |Killed(procs)| <= forced
    {
      ghost var busy, asked;
      empty, busy, asked := SettleUntil(clock + NATURAL);
      EvolvesKillsNone(old(procs), procs);
      seen, d := procs, None;
      if empty {
        SelfEvolves(procs);
      } else {
        label natural:
        empty, seen, d := Overrun();
        EvolvesTransitive(old(procs), old@natural(procs), seen);
      }
    }

    /** The rest of a drain whose natural half second is over. */
    method Overrun() returns (empty: bool, ghost seen: Job, ghost d: Option<WindowsJob.Drain>)
      requires Valid() && Killed(procs) == {} && forced == 0 && !crowded
      modifies this
      ensures Valid() && child == old(child) && nonFatal == old(nonFatal) && stops == old(stops) && Recorded()
      ensures old(rootExit).Some? ==> rootExit == old(rootExit)
      ensures empty ==> BrowserDone() && Empty(procs)
      ensures old(clock) <= clock <= old(clock) + FORCED && (!empty ==> clock == old(clock) + FORCED)
      ensures Evolves(old(procs), seen)
      ensures if d.None? then Evolves(seen, procs) && forced == 0 && Killed(procs) == {} else d.value.last == procs
      ensures faults == old(faults) ==> (d.Some? <==> !Empty(seen))
      ensures d.Some? && cleanupErrors == {} ==> forced == Reported(d.value)
      ensures d.Some? && cleanupErrors == {} && !crowded ==> DrainOk(d.value) && NoFailure(d.value)
      ensures cleanupErrors == {} && !crowded ==> |Killed(procs)| <= forced
    {
      var before := Processes();
      EvolvesKillsNone(old(procs), procs);
      EmptyIffInactive(procs);
      seen, d := procs, None;
      if before.Ok? && before.value.1 == 0 {
        ghost var busy, asked;
        empty, busy, asked := SettleUntil(clock + FORCED);
        EvolvesKillsNone(seen, procs);
      } else {
        ghost var count;
        empty, count := ForceOut(if before.Ok? then Ok(before.value.0) else Err(before.fault));
        d := Some(count);
      }
    }

    /** Lists what is in the job, ends it and counts. */
    method ForceOut(total: Io<nat>) returns (empty: bool, ghost d: WindowsJob.Drain)
      requires Valid() && Killed(procs) == {} && forced == 0 && !crowded
      requires total.Ok? ==> total.value <= |procs|
      modifies this
      ensures Valid() && child == old(child) && nonFatal == old(nonFatal) && stops == old(stops)
      ensures Noted([], total.Err?)
      ensures old(rootExit).Some? ==> rootExit == old(rootExit)
      ensures empty ==> BrowserDone() && Empty(procs)
      ensures !empty ==> clock >= old(clock) + FORCED
      ensures old(clock) <= clock <= old(clock) + FORCED
      ensures d.last == procs && (cleanupErrors == {} ==> forced == Reported(d))
      ensures cleanupErrors == {} && !crowded ==> DrainOk(d) && NoFailure(d) && |Killed(procs)| <= forced
    {
      var pids, held;
      ghost var listing, openedAt;
      pids, held, listing, openedAt := Hold();
      ghost var held0 := procs;
      var forcedEnd := clock + FORCED;
      ghost var before, after;
      empty, before, after := EndAll(forcedEnd);
      HandlesKnown(old(procs), listing, held0, pids, openedAt, held, before, after, procs);
      d := Report(held, total, if empty then Some(forcedEnd) else None,
                  WindowsJob.Drain(if total.Ok? then total.value else 0,
                                   listing, pids, openedAt, held, before, after, [], [], procs),
                  old(procs), held0);
    }

    /** Counts for the drain `ended`, whose members were listed since `from`, held
        open at `held0` and ended. */
    method Report(held: seq<Opened>, total: Io<nat>, emptyUntil: Option<nat>, ghost ended: WindowsJob.Drain,
                  ghost from: Job, ghost held0: Job)
      returns (ghost d: WindowsJob.Drain)
      requires Valid() && forced == 0 && (total.Ok? ==> total.value == ended.total <= |from|) && |from| <= |procs|
      requires forall k :: 0 <= k < |held| && held[k].Handle? && held[k].who.Some? ==> held[k].who.value < |procs|
      requires HeldOpen(from, ended.listing, held0, ended.pids, ended.openedAt, held) && Evolves(held0, ended.before)
      requires Evolves(ended.after, procs)
      requires cleanupErrors == {} ==> Lists(ended.listing, ended.pids) && ended.after == Terminated(ended.before)
      requires crowded || Active(ended.listing) <= MAX_LISTED
      modifies `procs, `clock, `forced, `cleanupErrors, `faults
      ensures Valid() && Evolves(old(procs), procs) && (Empty(old(procs)) ==> Empty(procs))
      ensures Noted(held, total.Err?)
      ensures d.last == procs && (cleanupErrors == {} ==> forced == Reported(d))
      ensures cleanupErrors == {} && !crowded ==> DrainOk(d) && NoFailure(d) && |Killed(procs)| <= forced
      ensures old(clock) <= clock <= match emptyUntil { case None => old(clock) case Some(end) => Max(old(clock), end) }
    {
      ghost var readAt, readings;
      readAt, readings := CountForced(held, total, emptyUntil);
      d := ended.(handles := held, readAt := readAt, readings := readings, last := procs);
      if cleanupErrors == {} && !crowded {
        CountedEnough(d, from, held0, old(procs));
      }
      if Empty(old(procs)) { StaysEmpty(old(procs), procs); }
    }

    /** Ends every member and waits for the job to empty. */
    method EndAll(deadline: nat) returns (empty: bool, ghost before: Job, ghost after: Job)
      requires Valid() && clock <= deadline
      modifies `procs, `clock, `rootExit, `cleanupErrors, `faults
      ensures Valid() && Evolves(old(procs), before) && |after| == |before| && Evolves(after, procs)
      ensures Recorded() && (cleanupErrors == {} ==> after == Terminated(before))
      ensures old(rootExit).Some? ==> rootExit == old(rootExit)
      ensures empty ==> BrowserDone() && Empty(procs)
      ensures old(clock) <= clock <= deadline && (!empty ==> clock == deadline)
    {
      var ended;
      ended, before := Terminate();
      if ended.Err? { cleanupErrors := cleanupErrors + {ended.fault}; }
      after := procs;
      ghost var busy, asked;
      empty, busy, asked := SettleUntil(deadline);
    }

    /** The members' handles, held open. */
    method Hold() returns (pids: seq<nat>, held: seq<Opened>, ghost listing: Job, ghost openedAt: seq<Job>)
      requires Valid() && Killed(procs) == {}
      modifies `procs, `cleanupErrors, `crowded, `faults
      ensures Valid() && HeldOpen(old(procs), listing, procs, pids, openedAt, held)
      ensures old(cleanupErrors) <= cleanupErrors && old(faults) <= faults
      ensures faults == old(faults) ==> Denied !in held && cleanupErrors == old(cleanupErrors)
      ensures faults > old(faults) ==> Denied in held || cleanupErrors != {}
      ensures crowded == (old(crowded) || Active(listing) > MAX_LISTED)
      ensures cleanupErrors == {} ==> Lists(listing, pids)
    {
      var listed := ProcessIds();
      listing := procs;
      EvolvesKillsNone(old(procs), listing);
      crowded := crowded || Active(listing) > MAX_LISTED;
      pids := [];
      if listed.Ok? { pids := listed.value; } else { cleanupErrors := cleanupErrors + {listed.fault}; }
      held, openedAt := OpenAll(pids);
    }

    method OpenAll(pids: seq<nat>) returns (held: seq<Opened>, ghost openedAt: seq<Job>)
      requires Valid()
      modifies `procs, `faults
      ensures Valid() && Evolves(old(procs), procs) && OpenedThrough(old(procs), procs, pids, openedAt, held)
      ensures old(faults) <= faults && (faults == old(faults) <==> Denied !in held)
    {
      held, openedAt := [], [];
      for k := 0 to |pids|
        invariant Valid() && Evolves(old(procs), procs)
        invariant old(faults) <= faults && (faults == old(faults) <==> Denied !in held)
        invariant OpenedThrough(old(procs), procs, pids[..k], openedAt, held)
      {
        label turn:
        var o := OpenProcess(pids[k]);
        OpenedOneMore(old(procs), old@turn(procs), procs, pids[..k + 1], openedAt, held, o);
        held, openedAt := held + [o], openedAt + [procs];
      }
      assert pids[..|pids|] == pids;
    }

    // --- The whole run -----------------------------------------------------------------------------------

    /** Starts the browser inside the job; one that cannot be started is ended. */
    method Spawn() returns (r: Io<nat>)
      requires Valid() && procs == [] && child.None?
      modifies `procs, `faults
      ensures Valid() && Killed(procs) == {} && (r.Ok? ==> r.value == 0 < |procs|)
      ensures faults == old(faults) + if r.Ok? then 0 else 1
    {
      var pid: nat := *;
      if * {
        procs := [Proc(pid, None, true, false, false)];
        r := Ok(0);
      } else {
        r := Err("spawn");
        faults := faults + 1;
      }
    }

    /** Waits for the browser's exit or a stop request (`stopped`), as long as it takes. */
    method WaitAny() returns (r: Io<()>, ghost stopped: bool)
      requires Valid() && child.Some?
      modifies `procs, `clock, `faults, `stops
      ensures Valid() && Evolves(old(procs), procs) && clock >= old(clock)
      ensures stops == old(stops) + if r.Ok? && stopped then 1 else 0
      ensures r.Ok? && !stopped ==> procs[child.value].signaled
      ensures faults == old(faults) + if r.Ok? then 0 else 1
    {
      Others();
      r, stopped := Ok(()), !procs[child.value].signaled;
      if * {
        r := Err("wait");
        faults := faults + 1;
      } else if stopped {
        stops := stops + 1;
      }
    }

    /** Until the browser exits or the App asks to stop. It gives up after eight failed
        waits (`failed`), with a pause after each but the last. */
    method Running() returns (failure: Option<string>, ghost failed: nat, ghost stopped: bool)
      requires Valid() && child.Some? && rootExit.None?
      modifies `procs, `clock, `rootExit, `cleanupErrors, `nonFatal, `faults, `stops
      ensures stops == old(stops) + if failure.None? && stopped then 1 else 0
      ensures Valid() && Evolves(old(procs), procs) && clock >= old(clock)
      ensures old(faults) + failed <= faults && old(cleanupErrors) <= cleanupErrors
      ensures faults == old(faults) + failed ==> cleanupErrors == old(cleanupErrors)
      ensures faults > old(faults) + failed ==> cleanupErrors != {}
      ensures failed == 0 ==> nonFatal == old(nonFatal)
      ensures failed <= 8 && (failure.Some? <==> failed == 8)
      ensures failure.Some? ==> failure.value in nonFatal && clock >= old(clock) + 7 * 250 * MS
      ensures failure.None? && !stopped ==> procs[child.value].signaled
      ensures failure.None? && !stopped && faults == old(faults) + failed ==> rootExit.Some?
    {
      failure, failed, stopped := None, 0, false;
      var faulty := 0;
      while true
        invariant Valid() && Evolves(old(procs), procs) && faulty == failed < MAX_RUNNING_FAULTS
        invariant rootExit.None? && cleanupErrors == old(cleanupErrors) && faults == old(faults) + failed
        invariant failed == 0 ==> nonFatal == old(nonFatal)
        invariant stops == old(stops)
        invariant clock >= old(clock) + faulty * FAULT_PAUSE
        decreases MAX_RUNNING_FAULTS - faulty
      {
        label turn:
        var woke;
        woke, stopped := WaitAny();
        EvolvesTransitive(old(procs), old@turn(procs), procs);
        if woke.Ok? { break; }
        nonFatal := nonFatal + {woke.fault};
        faulty, failed := faulty + 1, failed + 1;
        if faulty >= MAX_RUNNING_FAULTS { return Some(woke.fault), failed, stopped; }
        label faulted:
        Sleep(FAULT_PAUSE);
        EvolvesTransitive(old(procs), old@faulted(procs), procs);
      }
      label woken:
      Reap();
      Through(old(procs), old@woken(procs), procs, child);
    }

    /** One browser, from start to receipt. Exit 0 means the browser exited 0, the
        job is empty for good and nothing failed; a receipt without cleanup errors
        never understates how many processes were ended. `failed` waits for the browser
        failed, `stopped` says that it was asked to stop, and the drain began at `from`
        with the job `left`. */
    method Supervise(stop: Io<bool>, written: bool)
      returns (receipt: Receipt, exit: nat, ghost failed: nat, ghost stopped: bool, ghost from: nat, ghost left: Job)
      requires Valid() && procs == [] && child.None? && rootExit.None? && forced == 0 && cleanupErrors == {} && !crowded
      modifies this
      ensures Valid() && old(faults) + failed <= faults
      ensures exit == 0 <==>
        && written && receipt.complete && receipt.rootExit == Some(0) && receipt.error.None?
        && receipt.cleanupErrors == {}
      ensures exit <= 1
      ensures Receipted(receipt, from)
      ensures receipt.error.None? <==> stop == Ok(false) && child.Some? && failed < 8
      ensures stop == Ok(true) ==> receipt.error == Some("StopRequestedBeforeStart")
      ensures stop.Err? ==> receipt.error == Some(stop.fault)
      ensures child.None? ==> failed == 0
      ensures stop == Ok(false) && faults == old(faults) ==> child.Some?
      ensures stop != Ok(false) ==> child.None? && left == []
      ensures receipt.cleanupErrors == {} <==>
        faults == old(faults) + failed + if stop == Ok(false) && child.None? then 1 else 0
      ensures failed == 0 ==> receipt.nonFatalErrors == old(nonFatal)
      ensures receipt.cleanupErrors == {} && receipt.error.None? && !stopped ==> receipt.rootExit.Some?
      ensures receipt.error.None? && stopped ==> stops > old(stops)
      ensures receipt.cleanupErrors == {} && AtRest(left) ==> receipt.kernelNoChildren && clock == from
    {
      var failure := None;
      failed, stopped := 0, false;
      if stop.Err? {
        failure := Some(stop.fault);
      } else if stop.value {
        failure := Some("StopRequestedBeforeStart");
      } else {
        var spawned := Spawn();
        if spawned.Ok? {
          child := Some(spawned.value);
          label started:
          failure, failed, stopped := Running();
          EvolvesKillsNone(old@started(procs), procs);
        } else {
          failure := Some(spawned.fault);
        }
      }
      from, left := clock, procs;
      ghost var listed;
      receipt, exit, listed := Finish(failure, written);
    }

    /** What a receipt says of the run whose drain began at `from`. */
    ghost predicate Receipted(r: Receipt, from: nat)
      requires Valid()
      reads this
    {
      && (r.complete <==> r.kernelNoChildren && r.rootExit.Some?)
      && r.rootExit == (if rootExit.Some? then Some(Signed(procs[child.value].code.value)) else None)
      && (r.kernelNoChildren ==> BrowserDone() && Empty(procs) && r.remaining == [])
      && (!r.kernelNoChildren ==> clock >= from + 2_500 * MS)
      && from <= clock <= from + 2_500 * MS
      && r.forcedCleanup == forced && r.cleanupErrors == cleanupErrors && r.nonFatalErrors == nonFatal
      && (r.forcedCleanup > 0 || Killed(procs) != {} ==> clock >= from + 500 * MS)
      && (r.observed == |procs| || r.observed == 0) && (r.cleanupErrors == {} ==> r.observed == |procs|)
      && (r.cleanupErrors == {} && !crowded ==> |Killed(procs)| <= r.forcedCleanup)
    }

    /** The drain and the receipt. */
    method Finish(failure: Option<string>, written: bool) returns (receipt: Receipt, exit: nat, ghost listed: Job)
      requires Valid() && Killed(procs) == {} && forced == 0 && !crowded
      modifies this
      ensures Valid() && Recorded() && child == old(child) && nonFatal == old(nonFatal) && stops == old(stops)
      ensures old(rootExit).Some? ==> rootExit == old(rootExit)
      ensures exit == 0 <==>
        && written && receipt.complete && receipt.rootExit == Some(0) && receipt.error.None?
        && receipt.cleanupErrors == {}
      ensures exit <= 1 && receipt.error == failure
      ensures Receipted(receipt, old(clock))
      ensures Evolves(listed, procs) && (receipt.cleanupErrors == {} ==> Lists(listed, receipt.remaining))
      ensures faults == old(faults) && old(AtRest(procs)) ==> receipt.kernelNoChildren && clock == old(clock)
    {
      ghost var seen, d;
      var empty;
      empty, seen, d := Drain();
      var complete := child.Some? && rootExit.Some? && empty;
      var shown := if rootExit.Some? then Some(Signed(rootExit.value)) else None;
      var remaining, observed;
      remaining, observed, listed := Look();
      receipt := Receipt(shown, complete, remaining, empty, observed, forced, failure, cleanupErrors, nonFatal);
      var normal := complete && shown == Some(0) && failure.None? && cleanupErrors == {};
      exit := if normal && written then 0 else 1;
    }

    /** The processes still in the job, and how many were ever in it. */
    method Look() returns (remaining: seq<nat>, observed: nat, ghost listed: Job)
      requires Valid()
      modifies `procs, `cleanupErrors, `faults
      ensures Valid() && Recorded() && Killed(procs) == Killed(old(procs)) && Evolves(listed, procs)
      ensures Empty(old(procs)) ==> remaining == [] && Empty(procs)
      ensures cleanupErrors == {} ==> Lists(listed, remaining) && observed == |procs|
      ensures observed == |procs| || observed == 0
    {
      remaining := Remaining();
      listed := procs;
      EvolvesKillsNone(old(procs), listed);
      var total := Processes();
      EvolvesKillsNone(listed, procs);
      if Empty(listed) { StaysEmpty(listed, procs); }
      if total.Err? { cleanupErrors := cleanupErrors + {total.fault}; }
      observed := if total.Ok? then total.value.0 else 0;
    }

    /** The processes still in the job. */
    method Remaining() returns (pids: seq<nat>)
      requires Valid()
      modifies `procs, `cleanupErrors, `faults
      ensures Valid() && Evolves(old(procs), procs) && Recorded()
      ensures if faults == old(faults) then Lists(procs, pids) else pids == []
      ensures Empty(old(procs)) ==> pids == [] && Empty(procs)
    {
      var listed := ProcessIds();
      pids := [];
      if listed.Ok? { pids := listed.value; } else { cleanupErrors := cleanupErrors + {listed.fault}; }
      if Empty(old(procs)) {
        StaysEmpty(old(procs), procs);
        assert listed.Ok? && pids != [] ==> ListsMember(procs, pids[0]);
      }
    }
  }

  /** Each id was opened at some instant between the two. */
  ghost predicate OpenedThrough(from: Job, to: Job, pids: seq<nat>, openedAt: seq<Job>, held: seq<Opened>) {
    && |openedAt| == |held| == |pids|
    && forall k :: 0 <= k < |pids| ==> OpenedBetween(from, to, pids[k], openedAt[k], held[k])
  }

  ghost predicate OpenedBetween(from: Job, to: Job, pid: nat, at: Job, o: Opened) {
    Evolves(from, at) && Evolves(at, to) && Opens(at, pid, o)
  }

  /** The members were listed and opened between the two. */
  ghost predicate HeldOpen(from: Job, listing: Job, to: Job, pids: seq<nat>, openedAt: seq<Job>, held: seq<Opened>) {
    && Evolves(from, listing) && Evolves(listing, to) && Killed(listing) == {}
    && OpenedThrough(listing, to, pids, openedAt, held)
  }

  lemma HandlesKnown(from: Job, listing: Job, to: Job, pids: seq<nat>, openedAt: seq<Job>, held: seq<Opened>,
                     before: Job, after: Job, later: Job)
    requires HeldOpen(from, listing, to, pids, openedAt, held)
    requires Evolves(to, before) && |after| == |before| && Evolves(after, later)
    ensures |from| <= |later|
    ensures forall k :: 0 <= k < |held| && held[k].Handle? && held[k].who.Some? ==> held[k].who.value < |later|
  {
    forall k | 0 <= k < |held| && held[k].Handle? && held[k].who.Some? ensures held[k].who.value < |later| {
      assert OpenedBetween(listing, to, pids[k], openedAt[k], held[k]);
    }
  }

  lemma SelfEvolves(j: Job)
    requires JobOk(j)
    ensures Evolves(j, j)
  {
  }

  lemma StaysEmpty(j: Job, j': Job)
    requires Evolves(j, j') && Empty(j)
    ensures Empty(j')
  {
    forall i | 0 <= i < |j'| ensures !j'[i].inJob {
      assert ProcLater(j[i], j'[i]);
    }
  }

  lemma CountedEnough(d: WindowsJob.Drain, from: Job, held: Job, settled: Job)
    requires HeldOpen(from, d.listing, held, d.pids, d.openedAt, d.handles) && Lists(d.listing, d.pids)
    requires d.total <= |from|
    requires Active(d.listing) <= MAX_LISTED && NoFailure(d)
    requires Evolves(held, d.before)
    requires d.after == Terminated(d.before) && Evolves(d.after, settled)
    requires ReadThrough(settled, d.last, d.handles, d.readAt, d.readings) && Evolves(settled, d.last)
    ensures DrainOk(d) && Reported(d) >= |Killed(d.last)|
  {
    ForcedRun(d, held, settled);
    NeverUnderCounts(d);
  }

  /** The steps of `ForceOut` are a drain of the job. */
  lemma ForcedRun(d: WindowsJob.Drain, held: Job, settled: Job)
    requires JobOk(d.listing) && d.total <= |d.listing| && Killed(d.listing) == {} && Lists(d.listing, d.pids)
    requires OpenedThrough(d.listing, held, d.pids, d.openedAt, d.handles) && Evolves(d.listing, held)
    requires Evolves(held, d.before)
    requires d.after == Terminated(d.before) && Evolves(d.after, settled)
    requires ReadThrough(settled, d.last, d.handles, d.readAt, d.readings) && Evolves(settled, d.last)
    ensures DrainOk(d)
  {
    EvolvesTransitive(d.listing, held, d.before);
    EvolvesTransitive(d.after, settled, d.last);
    forall k | 0 <= k < |d.pids| ensures OpenedThen(d, k) && ReadThen(d, k) {
      assert OpenedBetween(d.listing, held, d.pids[k], d.openedAt[k], d.handles[k]);
      EvolvesTransitive(d.openedAt[k], held, d.before);
      assert ReadBetween(settled, d.last, d.handles[k], d.readAt[k], d.readings[k]);
      EvolvesTransitive(d.after, settled, d.readAt[k]);
    }
  }

  lemma OpenedOneMore(from: Job, to: Job, later: Job, pids: seq<nat>, openedAt: seq<Job>, held: seq<Opened>, o: Opened)
    requires pids != [] && Evolves(from, to) && Evolves(to, later) && Opens(later, pids[|pids| - 1], o)
    requires OpenedThrough(from, to, pids[..|pids| - 1], openedAt, held)
    ensures Evolves(from, later) && OpenedThrough(from, later, pids, openedAt + [later], held + [o])
  {
    EvolvesTransitive(from, to, later);
    forall k | 0 <= k < |pids| ensures OpenedBetween(from, later, pids[k], (openedAt + [later])[k], (held + [o])[k]) {
      if k < |pids| - 1 {
        assert OpenedBetween(from, to, pids[..|pids| - 1][k], openedAt[k], held[k]);
        EvolvesTransitive(openedAt[k], to, later);
      }
    }
  }

  lemma EmptyIffInactive(j: Job)
    ensures Active(j) == 0 <==> Empty(j)
  {
    if Empty(j) {
      assert Members(j) == {};
    } else {
      var i :| 0 <= i < |j| && j[i].inJob;
      assert i in Members(j);
    }
  }

  /** Each held process was read at some instant between the two. */
  ghost predicate ReadThrough(from: Job, to: Job, held: seq<Opened>, readAt: seq<Job>, readings: seq<Reading>) {
    && |readAt| == |readings| == |held|
    && forall k :: 0 <= k < |held| ==> ReadBetween(from, to, held[k], readAt[k], readings[k])
  }

  ghost predicate ReadBetween(from: Job, to: Job, o: Opened, at: Job, r: Reading) {
    && Evolves(from, at) && Evolves(at, to) && Reads(at, o, r)
    && (SignaledIn(from, o) && r.Read? && r.code.Some? ==> r.signaled)
  }

  predicate SignaledIn(j: Job, o: Opened) {
    o.Handle? && o.who.Some? && o.who.value < |j| && j[o.who.value].signaled
  }

  lemma ReadLater(from: Job, to: Job, later: Job, held: seq<Opened>, readAt: seq<Job>, readings: seq<Reading>)
    requires Evolves(from, to) && Evolves(to, later) && ReadThrough(from, to, held, readAt, readings)
    ensures Evolves(from, later) && ReadThrough(from, later, held, readAt, readings)
  {
    EvolvesTransitive(from, to, later);
    forall k | 0 <= k < |held| ensures ReadBetween(from, later, held[k], readAt[k], readings[k]) {
      assert ReadBetween(from, to, held[k], readAt[k], readings[k]);
      EvolvesTransitive(readAt[k], to, later);
    }
  }

  lemma {:induction false} ReadOneMore(from: Job, to: Job, later: Job, held: seq<Opened>, n: nat, readAt: seq<Job>,
                                       readings: seq<Reading>, at: Job, r: Reading)
    requires n < |held| && Evolves(from, to) && ReadBetween(to, later, held[n], at, r)
    requires ReadThrough(from, to, held[..n], readAt, readings)
    ensures Evolves(from, later) && ReadThrough(from, later, held[..n + 1], readAt + [at], readings + [r])
    ensures ForcedCount(readings + [r]) == ForcedCount(readings) + if CountsAsForced(r) then 1 else 0
  {
    EvolvesTransitive(from, to, at);
    EvolvesTransitive(to, at, later);
    ReadLater(from, to, later, held[..n], readAt, readings);
    if SignaledIn(from, held[n]) { assert ProcLater(from[held[n].who.value], to[held[n].who.value]); }
    assert (readings + [r])[..|readings|] == readings;
    forall k | 0 <= k < n + 1
      ensures ReadBetween(from, later, held[..n + 1][k], (readAt + [at])[k], (readings + [r])[k])
    {
      if k < n { assert ReadBetween(from, later, held[..n][k], readAt[k], readings[k]); }
    }
  }

  lemma Through(a: Job, b: Job, c: Job, who: Option<nat>)
    requires Evolves(a, b) && Evolves(b, c)
    ensures Evolves(a, c)
    ensures who.Some? && who.value < |b| && b[who.value].signaled ==> c[who.value].signaled
  {
    EvolvesTransitive(a, b, c);
    if who.Some? && who.value < |b| { assert ProcLater(b[who.value], c[who.value]); }
  }
}
