/** Fixed-window counters (rate-limit.ts): one row per bucket, against the full
    history of increments. */
module RateLimit {

  import opened Common

  /** A row of rate_windows. */
  datatype Window = Window(start: nat, count: nat)

  type Seconds = n: nat | 0 < n witness 60

  datatype CounterOp<B> = CounterOp(bucket: B, width: Seconds, increment: bool)

  function WindowStart(now: nat, width: nat): (s: nat)
    requires width > 0
    ensures s <= now < s + width
  {
    now - now % width
  }

  function SecondsLeft(now: nat, width: nat): nat
    requires width > 0
  {
    Max(WindowStart(now, width) + width - now, 1)
  }

  // --- One row ------------------------------------------------------------------

  function RowOf<B>(rows: map<B, Window>, bucket: B): Option<Window> {
    if bucket in rows then Some(rows[bucket]) else None
  }

  /** UPSERT: one more in the row's window, or a new window. */
  function Upsert(row: Option<Window>, start: nat): Window {
    if row.Some? && row.value.start == start then Window(start, row.value.count + 1) else Window(start, 1)
  }

  /** PEEK, with 0 for no row. */
  function Peek(row: Option<Window>, start: nat): nat {
    if row.Some? && row.value.start == start then row.value.count else 0
  }

  /** How many of these increments fell in the window starting at `start`. */
  function CountIn(times: seq<nat>, width: nat, start: nat): nat
    requires width > 0
  {
    if times == [] then 0
    else CountIn(times[..|times| - 1], width, start) + if WindowStart(times[|times| - 1], width) == start then 1 else 0
  }

  lemma {:induction false} CountOne(times: seq<nat>, width: nat, start: nat, t: nat)
    requires width > 0
    ensures CountIn(times + [t], width, start) ==
      CountIn(times, width, start) + if WindowStart(t, width) == start then 1 else 0
  {
    assert (times + [t])[..|times|] == times;
  }

  lemma WindowsGrow(a: nat, b: nat, width: nat)
    requires width > 0 && a <= b
    ensures WindowStart(a, width) <= WindowStart(b, width)
    ensures WindowStart(a, width) < WindowStart(b, width) ==> WindowStart(a, width) + width <= WindowStart(b, width)
  {
    var x, y := a / width, b / width;
    QuotientTimes(a, width);
    QuotientTimes(b, width);
    FewerTimes(b, width, x);
    Swapped(width, x);
    Swapped(width, y);
    ScaledMore(width, x, y);
    if x < y {
      ScaledMore(width, x + 1, y);
      Swapped(width, x + 1);
      OneMore(x, width);
    }
  }

  /** The start is the only multiple of the width with this instant in its window. */
  lemma WindowIsUnique(now: nat, width: nat, k: nat)
    requires width > 0
    ensures k * width <= now < k * width + width <==> WindowStart(now, width) == k * width
    ensures WindowStart(now, width) == now / width * width
  {
    QuotientTimes(now, width);
    QuotientIs(now, width, k);
    OneMore(k, width);
  }

  /** The row stands for the history `times`, for every reading from `now` on. */
  ghost predicate Refines(row: Option<Window>, times: seq<nat>, width: nat, now: nat)
    requires width > 0
  {
    && (forall i :: 0 <= i < |times| ==> times[i] <= now)
    && forall later :: now <= later ==>
         Peek(row, WindowStart(later, width)) == CountIn(times, width, WindowStart(later, width))
  }

  /** Windows that start after every increment are empty. */
  lemma {:induction false} NoneAfter(times: seq<nat>, width: nat, now: nat, start: nat)
    requires width > 0 && WindowStart(now, width) < start
    requires forall i :: 0 <= i < |times| ==> times[i] <= now
    ensures CountIn(times, width, start) == 0
  {
    if times != [] {
      WindowsGrow(times[|times| - 1], now, width);
      NoneAfter(times[..|times| - 1], width, now, start);
    }
  }

  /** An increment answers the exact number of increments in the current window. */
  lemma {:induction false} IncrementExact(row: Option<Window>, times: seq<nat>, width: nat, before: nat, now: nat)
    requires width > 0 && before <= now && Refines(row, times, width, before)
    ensures
      var after := Upsert(row, WindowStart(now, width));
      && after.count == CountIn(times + [now], width, WindowStart(now, width))
      && Refines(Some(after), times + [now], width, now)
  {
    var start := WindowStart(now, width);
    var after := Upsert(row, start);
    CountOne(times, width, start, now);
    assert Peek(row, start) == CountIn(times, width, start);
    forall later | now <= later
      ensures Peek(Some(after), WindowStart(later, width)) == CountIn(times + [now], width, WindowStart(later, width))
    {
      WindowsGrow(now, later, width);
      if start < WindowStart(later, width) {
        NoneAfter(times + [now], width, now, WindowStart(later, width));
      }
    }
  }

  lemma RefinesLater(row: Option<Window>, times: seq<nat>, width: nat, before: nat, now: nat)
    requires width > 0 && before <= now && Refines(row, times, width, before)
    ensures Refines(row, times, width, now)
  {
  }

  // --- The daily purge ------------------------------------------------------------

  const PURGE_AGE := 7200

  /** What the purge at `now` leaves of a row. */
  function Purged(row: Option<Window>, now: nat): Option<Window> {
    if row.Some? && row.value.start < now - PURGE_AGE then None else row
  }

  /** The purge never changes an answer exactly for windows of up to two hours
      and one second. */
  lemma PurgeInvisibleIff(width: nat)
    requires width > 0
    ensures width <= 7201 <==>
      forall row, times, now :: Refines(row, times, width, now) ==> Refines(Purged(row, now), times, width, now)
  {
    if width <= PURGE_AGE + 1 {
      forall row, times, now | Refines(row, times, width, now)
        ensures Refines(Purged(row, now), times, width, now)
      {
        PurgeKeeps(row, times, width, now);
      }
    } else {
      var now := PURGE_AGE + 1;
      var row := Some(Window(0, 1));
      assert WindowStart(0, width) == 0 && WindowStart(now, width) == 0;
      assert Refines(None, [], width, 0);
      IncrementExact(None, [], width, 0, 0);
      RefinesLater(row, [] + [0], width, 0, now);
      assert Purged(row, now) == None;
      CountOne([], width, 0, 0);
      assert !Refines(None, [] + [0], width, now);
    }
  }

  lemma PurgeKeeps(row: Option<Window>, times: seq<nat>, width: nat, now: nat)
    requires 0 < width <= 7201 && Refines(row, times, width, now)
    ensures Refines(Purged(row, now), times, width, now)
  {
    forall later | now <= later
      ensures Peek(Purged(row, now), WindowStart(later, width)) == CountIn(times, width, WindowStart(later, width))
    {
      assert WindowStart(later, width) >= now - PURGE_AGE;
      assert Peek(row, WindowStart(later, width)) == CountIn(times, width, WindowStart(later, width));
    }
  }

  // --- limit ------------------------------------------------------------------------

  /** Retry-After names the first second of the next window. */
  lemma RetryAfterIsExact(now: nat, width: nat)
    requires width > 0
    ensures now + SecondsLeft(now, width) == WindowStart(now, width) + width
    ensures WindowStart(now + SecondsLeft(now, width), width) == now + SecondsLeft(now, width)
    ensures forall t :: now <= t < now + SecondsLeft(now, width) ==> WindowStart(t, width) == WindowStart(now, width)
  {
    var next := WindowStart(now, width) + width;
    WindowsGrow(now, next, width);
    forall t | now <= t < next
      ensures WindowStart(t, width) == WindowStart(now, width)
    {
      WindowsGrow(now, t, width);
    }
  }

  /** Calls to `limit` at these times that were allowed and fell in one window. */
  function Allowed(times: seq<nat>, width: nat, most: nat, start: nat): nat
    requires width > 0
  {
    if times == [] then 0
    else
      var t := times[|times| - 1];
      Allowed(times[..|times| - 1], width, most, start) +
      if WindowStart(t, width) == start && CountIn(times, width, start) <= most then 1 else 0
  }

  /** Of each window exactly the first `most` calls are allowed. */
  lemma {:induction false} AllowedPerWindow(times: seq<nat>, width: nat, most: nat, start: nat)
    requires width > 0
    ensures Allowed(times, width, most, start) == Min(most, CountIn(times, width, start))
  {
    if times != [] {
      AllowedPerWindow(times[..|times| - 1], width, most, start);
    }
  }

  /** Allowed calls in the half-open span of seconds from `a` to `b`. */
  function AllowedInSpan(times: seq<nat>, width: nat, most: nat, a: nat, b: nat): nat
    requires width > 0
  {
    if times == [] then 0
    else
      var t := times[|times| - 1];
      AllowedInSpan(times[..|times| - 1], width, most, a, b) +
      if a <= t < b && CountIn(times, width, WindowStart(t, width)) <= most then 1 else 0
  }

  /** A span as long as the window holds at most twice the limit. */
  lemma SpanAllowsTwice(times: seq<nat>, width: nat, most: nat, a: nat)
    requires width > 0
    ensures AllowedInSpan(times, width, most, a, a + width) <= 2 * most
  {
    var first := WindowStart(a, width);
    SpanIsTwoWindows(times, width, most, a);
    AllowedPerWindow(times, width, most, first);
    AllowedPerWindow(times, width, most, first + width);
  }

  lemma {:induction false} SpanIsTwoWindows(times: seq<nat>, width: nat, most: nat, a: nat)
    requires width > 0
    ensures AllowedInSpan(times, width, most, a, a + width)
         <= Allowed(times, width, most, WindowStart(a, width)) +
           Allowed(times, width, most, WindowStart(a, width) + width)
  {
    if times != [] {
      var t := times[|times| - 1];
      SpanIsTwoWindows(times[..|times| - 1], width, most, a);
      if a <= t < a + width {
        var first := WindowStart(a, width);
        WindowsGrow(a, t, width);
        RetryAfterIsExact(a, width);
        if t >= first + width { WindowsGrow(first + width, t, width); }
        if WindowStart(t, width) > first { RetryAfterIsExact(first + width, width); }
        assert WindowStart(t, width) == first || WindowStart(t, width) == first + width;
      }
    }
  }

  // --- The counters -------------------------------------------------------------------

  /** Every increment ever made, per bucket, in order. */
  type History<B> = map<B, seq<nat>>

  function Times<B>(h: History<B>, bucket: B): seq<nat> {
    if bucket in h then h[bucket] else []
  }

  function Record<B>(h: History<B>, op: CounterOp<B>, now: nat): History<B> {
    if op.increment then h[op.bucket := Times(h, op.bucket) + [now]] else h
  }

  function RecordAll<B>(h: History<B>, ops: seq<CounterOp<B>>, now: nat): History<B> {
    if ops == [] then h else Record(RecordAll(h, ops[..|ops| - 1], now), ops[|ops| - 1], now)
  }

  /** The number of increments in the current window, this one included. */
  function Exact<B>(h: History<B>, op: CounterOp<B>, now: nat): nat {
    CountIn(Times(Record(h, op, now), op.bucket), op.width, WindowStart(now, op.width))
  }

  function ExactAll<B>(h: History<B>, ops: seq<CounterOp<B>>, now: nat): (counts: seq<nat>)
    ensures |counts| == |ops|
  {
    if ops == [] then []
    else
      var n := |ops| - 1;
      ExactAll(h, ops[..n], now) + [Exact(RecordAll(h, ops[..n], now), ops[n], now)]
  }

  ghost predicate Tracks<B(!new)>(rows: map<B, Window>, h: History<B>, width: B -> Seconds, now: nat) {
    forall bucket :: Refines(RowOf(rows, bucket), Times(h, bucket), width(bucket), now)
  }

  /** The rows after one op, and its answer. */
  function RowsAfter<B>(rows: map<B, Window>, op: CounterOp<B>, now: nat): map<B, Window> {
    if op.increment then rows[op.bucket := Upsert(RowOf(rows, op.bucket), WindowStart(now, op.width))] else rows
  }

  function Answer<B>(rows: map<B, Window>, op: CounterOp<B>, now: nat): nat {
    Peek(RowOf(RowsAfter(rows, op, now), op.bucket), WindowStart(now, op.width))
  }

  /** On a clock that does not go back, the rows answer as the full history would. */
  lemma OneExact<B(!new)>(rows: map<B, Window>, h: History<B>, width: B -> Seconds, before: nat, op: CounterOp<B>,
                          now: nat)
    requires Tracks(rows, h, width, before) && before <= now && op.width == width(op.bucket)
    ensures Tracks(RowsAfter(rows, op, now), Record(h, op, now), width, now)
    ensures Answer(rows, op, now) == Exact(h, op, now)
  {
    var row, times := RowOf(rows, op.bucket), Times(h, op.bucket);
    assert Refines(row, times, op.width, before);
    if op.increment { IncrementExact(row, times, op.width, before, now); }
    forall bucket
      ensures Refines(RowOf(RowsAfter(rows, op, now), bucket), Times(Record(h, op, now), bucket), width(bucket), now)
    {
      assert Refines(RowOf(rows, bucket), Times(h, bucket), width(bucket), before);
      if bucket != op.bucket || !op.increment {
        RefinesLater(RowOf(rows, bucket), Times(h, bucket), width(bucket), before, now);
      }
    }
  }

  /** UPSERT with its count, or PEEK. */
  method Apply<B(==)>(rows: map<B, Window>, op: CounterOp<B>, now: nat) returns (rows': map<B, Window>, count: nat)
    ensures rows' == RowsAfter(rows, op, now) && count == Answer(rows, op, now)
  {
    var start := WindowStart(now, op.width);
    var row := RowOf(rows, op.bucket);
    if op.increment {
      rows' := rows[op.bucket := Upsert(row, start)];
      count := Upsert(row, start).count;
    } else {
      rows', count := rows, Peek(row, start);
    }
  }

  /** D1-backed counters, for buckets of any kind. `history` is every increment
      ever made; the single row per bucket answers as if it were kept. */
  class D1Counters<B(==,!new)> {
    var rows: map<B, Window>
    ghost var history: History<B>
    ghost var clock: nat
    ghost const width: B -> Seconds

    ghost predicate Valid()
      reads this
    {
      Tracks(rows, history, width, clock)
    }

    constructor (ghost width: B -> Seconds)
      ensures Valid() && history == map[] && clock == 0 && this.width == width
    {
      rows, history, clock, this.width := map[], map[], 0, width;
    }

    /** Each bucket is always used with one window length. */
    ghost predicate Fits(op: CounterOp<B>) {
      op.width == width(op.bucket)
    }

    method RunOne(op: CounterOp<B>, now: nat) returns (count: nat)
      requires Fits(op)
      modifies this
      ensures rows == RowsAfter(old(rows), op, now) && count == Answer(old(rows), op, now)
      ensures old(Valid()) && old(clock) <= now ==>
        && Valid() && clock == now
        && count == Exact(old(history), op, now)
        && history == Record(old(history), op, now)
    {
      if Valid() && clock <= now { OneExact(rows, history, width, clock, op, now); }
      rows, count := Apply(rows, op, now);
      history, clock := Record(history, op, now), now;
    }

    /** One batch: every op in order, at one time. */
    method Run(ops: seq<CounterOp<B>>, now: nat) returns (counts: seq<nat>)
      requires Valid() && clock <= now
      requires forall op :: op in ops ==> Fits(op)
      modifies this
      ensures Valid() && old(clock) <= clock <= now
      ensures counts == ExactAll(old(history), ops, now)
      ensures history == RecordAll(old(history), ops, now)
    {
      counts := [];
      for n := 0 to |ops|
        invariant Valid() && old(clock) <= clock <= now
        invariant counts == ExactAll(old(history), ops[..n], now)
        invariant history == RecordAll(old(history), ops[..n], now)
      {
        assert ops[..n + 1][..n] == ops[..n];
        var count := RunOne(ops[n], now);
        counts := counts + [count];
      }
      assert ops[..|ops|] == ops;
    }

    /** Counts one event against a limit: allowed while at most `most` increments
        fell in this window; otherwise retry when the next window starts. */
    method Limit(bucket: B, seconds: Seconds, most: nat, now: nat) returns (allowed: bool, retryAfter: nat)
      requires Valid() && clock <= now && seconds == width(bucket)
      modifies this
      ensures Valid() && clock == now
      ensures history == old(history)[bucket := Times(old(history), bucket) + [now]]
      ensures allowed <==> CountIn(Times(history, bucket), seconds, WindowStart(now, seconds)) <= most
      ensures allowed ==> retryAfter == 0
      ensures !allowed ==> now + retryAfter == WindowStart(now, seconds) + seconds
    {
      var count := RunOne(CounterOp(bucket, seconds, true), now);
      RetryAfterIsExact(now, seconds);
      if count > most {
        allowed, retryAfter := false, SecondsLeft(now, seconds);
      } else {
        allowed, retryAfter := true, 0;
      }
    }

    /** The daily purge of old rows. No later answer changes. */
    method Purge(now: nat)
      requires Valid() && clock <= now
      requires forall bucket :: width(bucket) <= PURGE_AGE + 1
      modifies this
      ensures Valid() && clock == now && history == old(history)
      ensures forall bucket :: RowOf(rows, bucket) == Purged(RowOf(old(rows), bucket), now)
    {
      var stale := set bucket | bucket in rows && rows[bucket].start < now - PURGE_AGE;
      rows := rows - stale;
      forall bucket
        ensures Refines(RowOf(rows, bucket), Times(history, bucket), width(bucket), now)
      {
        assert Refines(RowOf(old(rows), bucket), Times(history, bucket), width(bucket), clock);
        RefinesLater(RowOf(old(rows), bucket), Times(history, bucket), width(bucket), clock, now);
        PurgeKeeps(RowOf(old(rows), bucket), Times(history, bucket), width(bucket), now);
      }
      clock := now;
    }
  }
}
