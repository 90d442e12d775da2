/** A Job Object as the Windows guard sees it (guard_windows.rs, windows_job.rs),
    and why the forced-cleanup count is never below the truth. */
module WindowsJob {
  import opened Common

  const FORCED_EXIT := 0xE000_7462
  const STILL_ACTIVE := 259
  const MAX_LISTED := 1024

  /** A process ever in the job. Its exit code is set first; then the job drops it
      and its handle is signaled. */
  datatype Proc = Proc(pid: nat, code: Option<nat>, inJob: bool, signaled: bool, killed: bool)

  /** Every process ever in the job, in the order they entered. */
  type Job = seq<Proc>

  ghost predicate ProcOk(p: Proc) {
    && (!p.inJob || p.signaled ==> p.code.Some?)
    && (p.killed ==> p.code == Some(FORCED_EXIT))
  }

  ghost predicate JobOk(j: Job) {
    && (forall i :: 0 <= i < |j| ==> ProcOk(j[i]))
    && forall a, b :: 0 <= a < b < |j| && j[a].inJob && j[b].inJob ==> j[a].pid != j[b].pid
  }

  predicate Empty(j: Job) {
    forall i :: 0 <= i < |j| ==> !j[i].inJob
  }

  function Active(j: Job): nat {
    |Members(j)|
  }

  function Members(j: Job): set<nat> {
    set i | 0 <= i < |j| && j[i].inJob
  }

  function Killed(j: Job): set<nat> {
    set i | 0 <= i < |j| && j[i].killed
  }

  /** One process goes on by itself. */
  ghost predicate ProcLater(p: Proc, p': Proc) {
    && p'.pid == p.pid && p'.killed == p.killed
    && (p.code.Some? ==> p'.code == p.code)
    && (p'.inJob ==> p.inJob)
    && (p.signaled ==> p'.signaled)
  }

  /** Processes end by themselves and start others; no process enters an empty job. */
  ghost predicate Evolves(j: Job, j': Job) {
    && JobOk(j') && |j| <= |j'|
    && (forall i :: 0 <= i < |j| ==> ProcLater(j[i], j'[i]))
    && (forall i :: |j| <= i < |j'| ==> !j'[i].killed)
    && (Empty(j) ==> |j'| == |j|)
  }

  lemma EvolvesTransitive(a: Job, b: Job, c: Job)
    requires Evolves(a, b) && Evolves(b, c)
    ensures Evolves(a, c)
  {
    forall i | 0 <= i < |a| ensures ProcLater(a[i], c[i]) {
      assert ProcLater(a[i], b[i]) && ProcLater(b[i], c[i]);
    }
    forall i | |a| <= i < |c| ensures !c[i].killed {
      if i < |b| { assert ProcLater(b[i], c[i]); }
    }
    if Empty(a) {
      assert forall i :: 0 <= i < |a| ==> ProcLater(a[i], b[i]);
      assert Empty(b);
    }
  }

  lemma EvolvesKillsNone(j: Job, j': Job)
    requires Evolves(j, j')
    ensures Killed(j') == Killed(j)
  {
    forall i | i in Killed(j') ensures i in Killed(j) {
      if i < |j| { assert ProcLater(j[i], j'[i]); }
    }
    forall i | i in Killed(j) ensures i in Killed(j') {
      assert ProcLater(j[i], j'[i]);
    }
  }

  /** TerminateJobObject at once ends the members that have no exit code yet. */
  function Terminated(j: Job): (r: Job)
    ensures |r| == |j|
  {
    seq(|j|, i requires 0 <= i < |j| => Ended(j[i]))
  }

  function Ended(p: Proc): Proc {
    if p.inJob && p.code.None? then p.(code := Some(FORCED_EXIT), killed := true) else p
  }

  // --- The rule of the count ---------------------------------------------------------------

  datatype End = Forced | ByItself | Unknown

  function Classify(code: Option<nat>, signaled: bool): End {
    if code.None? then Unknown
    else if code.value == FORCED_EXIT then Forced
    else if code.value == STILL_ACTIVE && !signaled then Forced
    else ByItself
  }

  /** What opening a listed id gave: a handle (of a process of the job, or of a
      stranger that has the id now), no such process, or an error. */
  datatype Opened = Handle(who: Option<nat>) | Gone | Denied

  /** What the guard read of a listed process; `Read` with no code is a failure. */
  datatype Reading = Skipped | Read(code: Option<nat>, signaled: bool)

  predicate CountsAsForced(r: Reading) {
    r.Read? && Classify(r.code, r.signaled).Forced?
  }

  predicate Failed(r: Reading) {
    r.Read? && r.code.None?
  }

  function ForcedCount(rs: seq<Reading>): nat {
    if rs == [] then 0 else ForcedCount(rs[..|rs| - 1]) + if CountsAsForced(rs[|rs| - 1]) then 1 else 0
  }

  /** The ids of members, all of them unless the list is full. */
  ghost predicate Lists(j: Job, pids: seq<nat>) {
    && |pids| <= MAX_LISTED
    && (forall k :: 0 <= k < |pids| ==> ListsMember(j, pids[k]))
    && (forall a, b :: 0 <= a < b < |pids| ==> pids[a] != pids[b])
    && (Active(j) <= MAX_LISTED ==> forall i :: 0 <= i < |j| && j[i].inJob ==> j[i].pid in pids)
    && (Active(j) > MAX_LISTED ==> |pids| == MAX_LISTED)
  }

  ghost predicate ListsMember(j: Job, pid: nat) {
    exists i :: 0 <= i < |j| && j[i].inJob && j[i].pid == pid
  }

  /** A running process is what its id opens. */
  ghost predicate Opens(j: Job, pid: nat, o: Opened) {
    && (o.Handle? && o.who.Some? ==> o.who.value < |j| && j[o.who.value].pid == pid)
    && forall i :: 0 <= i < |j| && j[i].pid == pid && j[i].code.None? ==> o == Handle(Some(i)) || o == Denied
  }

  /** A reading at an instant: a process without an exit code reads STILL_ACTIVE. */
  ghost predicate Reads(j: Job, o: Opened, r: Reading) {
    && (o.Gone? <==> r.Skipped?)
    && (o.Denied? ==> Failed(r))
    && (o.Handle? && o.who.Some? && r.Read? && r.code.Some? ==>
          && o.who.value < |j|
          && r.code.value == (if j[o.who.value].code.Some? then j[o.who.value].code.value else STILL_ACTIVE)
          && (r.signaled ==> j[o.who.value].signaled))
  }

  /** What the count makes of one process: running or ended by the termination counts,
      an end with another code does not, and 259 counts until the handle is signaled. */
  lemma CountedWhen(j: Job, i: nat, r: Reading)
    requires JobOk(j) && Reads(j, Handle(Some(i)), r) && !Failed(r)
    ensures j[i].code.None? || j[i].code == Some(0xE000_7462) ==> CountsAsForced(r)
    ensures j[i].code == Some(259) ==> (CountsAsForced(r) <==> !r.signaled)
    ensures j[i].code.Some? && j[i].code.value !in {0xE000_7462, 259} ==> !CountsAsForced(r)
  {
    assert ProcOk(j[i]);
  }

  // --- One forced drain ------------------------------------------------------------------------

  /** The instants of a drain that terminates the job: the total is read (`total`
      processes so far), then the list, each id is opened, the job terminated, each
      process read, and the total read again. */
  datatype Drain = Drain(
    total: nat,
    listing: Job,
    pids: seq<nat>,
    openedAt: seq<Job>,
    handles: seq<Opened>,
    before: Job,
    after: Job,
    readAt: seq<Job>,
    readings: seq<Reading>,
    last: Job)

  ghost predicate DrainOk(d: Drain) {
    && JobOk(d.listing) && d.total <= |d.listing| && Killed(d.listing) == {}
    && Lists(d.listing, d.pids)
    && |d.handles| == |d.openedAt| == |d.readings| == |d.readAt| == |d.pids|
    && (forall k :: 0 <= k < |d.pids| ==> OpenedThen(d, k))
    && Evolves(d.listing, d.before) && d.after == Terminated(d.before)
    && (forall k :: 0 <= k < |d.pids| ==> ReadThen(d, k))
    && Evolves(d.after, d.last)
  }

  ghost predicate OpenedThen(d: Drain, k: nat)
    requires k < |d.handles| == |d.openedAt| == |d.pids|
  {
    Evolves(d.listing, d.openedAt[k]) && Evolves(d.openedAt[k], d.before)
      && Opens(d.openedAt[k], d.pids[k], d.handles[k])
  }

  ghost predicate ReadThen(d: Drain, k: nat)
    requires k < |d.handles| == |d.readings| == |d.readAt|
  {
    Evolves(d.after, d.readAt[k]) && Evolves(d.readAt[k], d.last) && Reads(d.readAt[k], d.handles[k], d.readings[k])
  }

  /** What the receipt says: the listed processes that count, and every process
      that entered after the total was read. */
  function Reported(d: Drain): int {
    ForcedCount(d.readings) + |d.last| - d.total
  }

  ghost predicate NoFailure(d: Drain) {
    forall k :: 0 <= k < |d.readings| ==> !Failed(d.readings[k])
  }

  /** A process the termination ended was running when it was listed and opened. */
  lemma KilledWasListed(d: Drain, i: nat) returns (k: nat)
    requires DrainOk(d) && NoFailure(d) && Active(d.listing) <= MAX_LISTED
    requires i < d.total && i in Killed(d.last)
    ensures k < |d.pids| && d.handles[k] == Handle(Some(i)) && CountsAsForced(d.readings[k])
  {
    assert ProcLater(d.after[i], d.last[i]);
    assert ProcLater(d.listing[i], d.before[i]);
    assert i !in Killed(d.listing);
    assert d.before[i].inJob && d.before[i].code.None?;
    assert d.listing[i].pid in d.pids;
    k :| 0 <= k < |d.pids| && d.pids[k] == d.listing[i].pid;
    assert OpenedThen(d, k) && ReadThen(d, k);
    assert ProcLater(d.listing[i], d.openedAt[k][i]) && ProcLater(d.openedAt[k][i], d.before[i]);
    assert ProcLater(d.after[i], d.readAt[k][i]);
  }

  lemma {:induction false} CountCovers(handles: seq<Opened>, rs: seq<Reading>, covered: set<nat>)
    requires |handles| == |rs|
    requires forall i :: i in covered ==> CountedAt(handles, rs, i)
    ensures |covered| <= ForcedCount(rs)
  {
    if rs == [] {
      assert forall i :: i in covered ==> CountedAt(handles, rs, i) && false;
      assert covered == {};
    } else {
      var n := |rs| - 1;
      var rest := covered - (if handles[n].Handle? && handles[n].who.Some? && CountsAsForced(rs[n])
                             then {handles[n].who.value} else {});
      forall i | i in rest ensures CountedAt(handles[..n], rs[..n], i) {
        var k :| 0 <= k < |rs| && handles[k] == Handle(Some(i)) && CountsAsForced(rs[k]);
        assert handles[..n][k] == Handle(Some(i));
      }
      CountCovers(handles[..n], rs[..n], rest);
      assert rest == covered || rest == covered - {handles[n].who.value};
    }
  }

  ghost predicate CountedAt(handles: seq<Opened>, rs: seq<Reading>, i: nat)
    requires |handles| == |rs|
  {
    exists k :: 0 <= k < |rs| && handles[k] == Handle(Some(i)) && CountsAsForced(rs[k])
  }

  function Span(lo: nat, hi: nat): (r: set<nat>)
    requires lo <= hi
    ensures forall i :: i in r <==> lo <= i < hi
    ensures |r| == hi - lo
  {
    if lo == hi then {} else Span(lo, hi - 1) + {hi - 1}
  }

  /** With no failed read and a list that had room for every member, the count is
      never below the number of processes the termination ended. */
  lemma NeverUnderCounts(d: Drain)
    requires DrainOk(d) && NoFailure(d) && Active(d.listing) <= MAX_LISTED
    ensures Reported(d) >= |Killed(d.last)|
  {
    var covered := set i | i in Killed(d.last) && i < d.total;
    forall i | i in covered ensures CountedAt(d.handles, d.readings, i) {
      var k := KilledWasListed(d, i);
    }
    CountCovers(d.handles, d.readings, covered);
    CardSubset(Killed(d.last), covered + Span(d.total, |d.last|));
  }

  /** Where nothing raced (every id opened a process of the job, every handle was
      signaled when read, nothing entered after the total) and no process returned
      FORCED_EXIT by itself, the count is exact. */
  lemma CountExact(d: Drain)
    requires DrainOk(d) && NoFailure(d) && Active(d.listing) <= MAX_LISTED && |d.last| == d.total
    requires forall k :: 0 <= k < |d.handles| && d.handles[k].Handle? ==> d.handles[k].who.Some?
    requires forall k :: 0 <= k < |d.readings| && d.readings[k].Read? ==> d.readings[k].signaled
    requires forall i :: 0 <= i < |d.last| && d.last[i].code == Some(FORCED_EXIT) ==> d.last[i].killed
    ensures Reported(d) == |Killed(d.last)|
  {
    NeverUnderCounts(d);
    forall k | 0 <= k < |d.readings| && CountsAsForced(d.readings[k])
      ensures d.handles[k].Handle? && d.handles[k].who.Some? && d.handles[k].who.value in Killed(d.last)
    {
      assert ReadThen(d, k);
      var i := d.handles[k].who.value;
      assert ProcOk(d.readAt[k][i]) && ProcLater(d.readAt[k][i], d.last[i]);
    }
    forall a, b | 0 <= a < b < |d.handles| && d.handles[a].Handle? && d.handles[b].Handle?
      ensures d.handles[a] != d.handles[b]
    {
      HandlePid(d, a);
      HandlePid(d, b);
    }
    CountCovered(d.handles, d.readings, Killed(d.last));
  }

  lemma HandlePid(d: Drain, k: nat)
    requires DrainOk(d) && k < |d.handles| && d.handles[k].Handle? && d.handles[k].who.Some?
    ensures d.handles[k].who.value < |d.before| && d.before[d.handles[k].who.value].pid == d.pids[k]
  {
    assert OpenedThen(d, k);
    assert ProcLater(d.openedAt[k][d.handles[k].who.value], d.before[d.handles[k].who.value]);
  }

  lemma {:induction false} CountCovered(handles: seq<Opened>, rs: seq<Reading>, killed: set<nat>)
    requires |handles| == |rs|
    requires forall k :: 0 <= k < |rs| && CountsAsForced(rs[k]) ==> Hits(handles[k], killed)
    requires forall a, b :: 0 <= a < b < |rs| && handles[a].Handle? && handles[b].Handle? ==> handles[a] != handles[b]
    ensures ForcedCount(rs) <= |killed|
  {
    if rs != [] {
      var n := |rs| - 1;
      if CountsAsForced(rs[n]) {
        CountCovered(handles[..n], rs[..n], killed - {handles[n].who.value});
      } else {
        CountCovered(handles[..n], rs[..n], killed);
      }
    }
  }

  predicate Hits(o: Opened, killed: set<nat>) {
    o.Handle? && o.who.Some? && o.who.value in killed
  }

  // --- A list that is full ------------------------------------------------------------------------

  /** `n` processes, of which the first have ended by themselves. */
  function Crowd(n: nat, quitters: nat): (j: Job)
    ensures |j| == n
  {
    seq(n, i requires 0 <= i < n =>
      if i < quitters then Proc(i, Some(0), false, true, false) else Proc(i, None, true, false, false))
  }

  /** The first 1024 are listed and end by themselves before the termination. */
  function CrowdDrain(n: nat): Drain {
    var after := Terminated(Crowd(n, MAX_LISTED));
    Drain(n, Crowd(n, 0),
          seq(MAX_LISTED, (i: nat) => i), seq(MAX_LISTED, _ => Crowd(n, 0)),
          seq(MAX_LISTED, (i: nat) => Handle(Some(i))),
          Crowd(n, MAX_LISTED), after,
          seq(MAX_LISTED, _ => after), seq(MAX_LISTED, _ => Read(Some(0), true)), after)
  }

  lemma {:induction false} NoneForced(rs: seq<Reading>)
    requires forall k :: 0 <= k < |rs| ==> !CountsAsForced(rs[k])
    ensures ForcedCount(rs) == 0
  {
    if rs != [] { NoneForced(rs[..|rs| - 1]); }
  }

  lemma CrowdEvolves(n: nat)
    requires n > MAX_LISTED
    ensures Evolves(Crowd(n, 0), Crowd(n, 0)) && Evolves(Crowd(n, 0), Crowd(n, MAX_LISTED))
    ensures Evolves(Terminated(Crowd(n, MAX_LISTED)), Terminated(Crowd(n, MAX_LISTED)))
  {
    assert Crowd(n, 0)[0].inJob;
    forall i | 0 <= i < n ensures ProcLater(Crowd(n, 0)[i], Crowd(n, MAX_LISTED)[i]) {
    }
    forall i | 0 <= i < n ensures ProcOk(Terminated(Crowd(n, MAX_LISTED))[i]) {
    }
  }

  lemma CrowdLists(n: nat)
    requires n > MAX_LISTED
    ensures Lists(Crowd(n, 0), CrowdDrain(n).pids) && Active(Crowd(n, 0)) == n
  {
    var pids := CrowdDrain(n).pids;
    assert Members(Crowd(n, 0)) == Span(0, n);
    forall k | 0 <= k < |pids| ensures ListsMember(Crowd(n, 0), pids[k]) {
      assert Crowd(n, 0)[k].inJob && Crowd(n, 0)[k].pid == pids[k];
    }
  }

  lemma CrowdStep(n: nat, k: nat)
    requires n > MAX_LISTED && k < MAX_LISTED
    ensures OpenedThen(CrowdDrain(n), k) && ReadThen(CrowdDrain(n), k)
  {
    CrowdEvolves(n);
    var d := CrowdDrain(n);
    assert d.openedAt[k] == d.listing && d.handles[k] == Handle(Some(k)) && d.pids[k] == k;
    assert d.readAt[k] == d.after && d.readings[k] == Read(Some(0), true);
    assert d.after[k] == Crowd(n, MAX_LISTED)[k] == Proc(k, Some(0), false, true, false);
  }

  lemma CrowdIsDrain(n: nat)
    requires n > MAX_LISTED
    ensures DrainOk(CrowdDrain(n))
  {
    var d := CrowdDrain(n);
    CrowdEvolves(n);
    CrowdLists(n);
    forall k | 0 <= k < MAX_LISTED ensures OpenedThen(d, k) && ReadThen(d, k) {
      CrowdStep(n, k);
    }
    assert Killed(d.listing) == {};
  }

  lemma {:induction false} CrowdKilled(n: nat)
    requires n > MAX_LISTED
    ensures Killed(Terminated(Crowd(n, MAX_LISTED))) == Span(MAX_LISTED, n)
  {
  }

  lemma CrowdReported(n: nat)
    requires n > MAX_LISTED
    ensures NoFailure(CrowdDrain(n)) && Reported(CrowdDrain(n)) == 0
  {
    NoneForced(CrowdDrain(n).readings);
  }

  lemma CrowdUnderCounts(n: nat)
    requires n > MAX_LISTED
    ensures
      var d := CrowdDrain(n);
      DrainOk(d) && NoFailure(d) && Active(d.listing) == n && Reported(d) == 0 && |Killed(d.last)| == n - MAX_LISTED
  {
    var d := CrowdDrain(n);
    CrowdIsDrain(n);
    CrowdLists(n);
    CrowdKilled(n);
    CrowdReported(n);
  }

  /** The count is never below the truth exactly for jobs of at most 1024 processes
      when they are listed. */
  lemma NeverUnderCountsIff(n: nat)
    ensures n <= 1024 <==>
      forall d :: DrainOk(d) && NoFailure(d) && Active(d.listing) == n ==> Reported(d) >= |Killed(d.last)|
  {
    if n <= MAX_LISTED {
      forall d | DrainOk(d) && NoFailure(d) && Active(d.listing) == n
        ensures Reported(d) >= |Killed(d.last)|
      {
        NeverUnderCounts(d);
      }
    } else {
      CrowdUnderCounts(n);
    }
  }
}
