/** What the relay's limits add up to, for handlers in sequence on a clock that
    does not go back: admission, the breaker, and retention. */
module RelaySequence {
  import opened Common
  import opened RateLimit
  import opened RelayStore
  import opened RelayPush

  // --- Admission, one device in one minute ------------------------------------------------

  /** `order` lists the active endpoints by first request; `past[k]` is how many
      messages of `order[k]` were forwarded past the device's ceiling. */
  datatype Minute = Minute(requests: map<string, nat>, order: seq<string>, past: seq<nat>, forwards: nat)

  const NewMinute := Minute(map[], [], [], 0)

  function Requests(m: Minute, e: string): nat {
    if e in m.requests then m.requests[e] else 0
  }

  /** The minute once the request is counted, before the decision. */
  function Asked(m: Minute, e: string, limits: Limits): Minute {
    var c := Requests(m, e) + 1;
    var m' := m.(requests := m.requests[e := c]);
    if c == 1 && c <= limits.endpointPerMinute then m'.(order := m.order + [e], past := m.past + [0]) else m'
  }

  predicate Allows(m: Minute, e: string, limits: Limits) {
    var m' := Asked(m, e, limits);
    var c := Requests(m', e);
    c <= limits.endpointPerMinute &&
    !(m.forwards >= limits.devicePerMinute && c > FairShare(limits, |m'.order|))
  }

  function IndexOf(s: seq<string>, e: string): nat
    requires e in s
    ensures IndexOf(s, e) < |s| && s[IndexOf(s, e)] == e
  {
    if s[0] == e then 0 else 1 + IndexOf(s[1..], e)
  }

  /** One message forwarded, past the ceiling if the device has reached it. */
  function Counted(m: Minute, e: string, limits: Limits): Minute {
    if m.forwards >= limits.devicePerMinute && e in m.order && |m.past| == |m.order| then
      var k := IndexOf(m.order, e);
      m.(forwards := m.forwards + 1, past := m.past[k := m.past[k] + 1])
    else m.(forwards := m.forwards + 1)
  }

  /** One request of an endpoint of the device; `sent` when a sender is configured. */
  function Ask(m: Minute, e: string, sent: bool, limits: Limits): Minute {
    if Allows(m, e, limits) && sent then Counted(Asked(m, e, limits), e, limits) else Asked(m, e, limits)
  }

  function Share(limits: Limits, j: nat): nat
    requires j > 0
  {
    Min(limits.endpointPerMinute, limits.devicePerMinute / j)
  }

  /** The fair shares of the first n endpoints, added up. */
  function Shares(limits: Limits, n: nat): nat {
    if n == 0 then 0 else Shares(limits, n - 1) + Share(limits, n)
  }

  function Sum(s: seq<nat>): nat {
    if s == [] then 0 else Sum(s[..|s| - 1]) + s[|s| - 1]
  }

  ghost predicate MinuteOk(m: Minute, limits: Limits) {
    && |m.past| == |m.order|
    && (forall i, j :: 0 <= i < j < |m.order| ==> m.order[i] != m.order[j])
    && (limits.endpointPerMinute > 0 ==> forall e :: e in m.order <==> Requests(m, e) > 0)
    && (forall k :: 0 <= k < |m.order| ==> PastOk(m, k, limits))
    && m.forwards <= limits.devicePerMinute + Sum(m.past)
  }

  ghost predicate PastOk(m: Minute, k: nat, limits: Limits)
    requires k < |m.order| == |m.past|
  {
    m.past[k] <= Share(limits, k + 1) && m.past[k] <= Requests(m, m.order[k])
  }

  lemma SumUpdate(s: seq<nat>, k: nat, v: nat)
    requires k < |s|
    ensures Sum(s[k := v]) == Sum(s) - s[k] + v
  {
    var n := |s| - 1;
    if k < n {
      SumUpdate(s[..n], k, v);
      assert s[k := v][..n] == s[..n][k := v];
    } else {
      assert s[k := v][..n] == s[..n];
    }
  }

  lemma {:induction false} SumBounded(s: seq<nat>, limits: Limits)
    requires forall k :: 0 <= k < |s| ==> s[k] <= Share(limits, k + 1)
    ensures Sum(s) <= Shares(limits, |s|)
  {
    if s != [] { SumBounded(s[..|s| - 1], limits); }
  }

  lemma AskedKeepsOk(m: Minute, e: string, limits: Limits)
    requires MinuteOk(m, limits)
    ensures MinuteOk(Asked(m, e, limits), limits)
  {
    var m' := Asked(m, e, limits);
    assert m'.past[..|m.past|] == m.past;
    assert Sum(m'.past) == Sum(m.past) by {
      if |m'.past| > |m.past| { assert m'.past[..|m'.past| - 1] == m.past; }
    }
    forall k | 0 <= k < |m'.order|
      ensures PastOk(m', k, limits)
    {
      if k < |m.order| { assert PastOk(m, k, limits); }
    }
  }

  /** Past the ceiling, an allowed request is within its endpoint's fair share. */
  lemma PastCeiling(m: Minute, e: string, limits: Limits) returns (k: nat)
    requires MinuteOk(m, limits) && Allows(m, e, limits) && m.forwards >= limits.devicePerMinute
    ensures MinuteOk(Asked(m, e, limits), limits)
    ensures e in Asked(m, e, limits).order && k == IndexOf(Asked(m, e, limits).order, e)
    ensures Asked(m, e, limits).past[k] + 1 <= Min(Share(limits, k + 1), Requests(Asked(m, e, limits), e))
  {
    AskedKeepsOk(m, e, limits);
    var m' := Asked(m, e, limits);
    k := IndexOf(m'.order, e);
    if k < |m.order| { assert PastOk(m, k, limits); }
    DivideByMore(limits.devicePerMinute, k + 1, |m'.order|);
  }

  lemma OnePastCeiling(m: Minute, k: nat, limits: Limits)
    requires MinuteOk(m, limits) && k < |m.order|
    requires m.past[k] + 1 <= Share(limits, k + 1) && m.past[k] + 1 <= Requests(m, m.order[k])
    ensures MinuteOk(m.(forwards := m.forwards + 1, past := m.past[k := m.past[k] + 1]), limits)
  {
    SumUpdate(m.past, k, m.past[k] + 1);
    var after := m.(forwards := m.forwards + 1, past := m.past[k := m.past[k] + 1]);
    forall i | 0 <= i < |after.order|
      ensures PastOk(after, i, limits)
    {
      assert PastOk(m, i, limits);
    }
  }

  lemma OneWithinCeiling(m: Minute, limits: Limits)
    requires MinuteOk(m, limits) && m.forwards < limits.devicePerMinute
    ensures MinuteOk(m.(forwards := m.forwards + 1), limits)
  {
    var after := m.(forwards := m.forwards + 1);
    forall i | 0 <= i < |after.order|
      ensures PastOk(after, i, limits)
    {
      assert PastOk(m, i, limits);
    }
  }

  lemma {:induction false} CountedKeepsOk(m: Minute, e: string, limits: Limits, k: nat)
    requires MinuteOk(m, limits)
    requires m.forwards >= limits.devicePerMinute ==>
      && e in m.order && k == IndexOf(m.order, e) && m.past[k] + 1 <= Min(Share(limits, k + 1), Requests(m, e))
    ensures MinuteOk(Counted(m, e, limits), limits)
  {
    if m.forwards >= limits.devicePerMinute { OnePastCeiling(m, k, limits); } else { OneWithinCeiling(m, limits); }
  }

  lemma AskKeepsOk(m: Minute, e: string, sent: bool, limits: Limits)
    requires MinuteOk(m, limits)
    ensures MinuteOk(Ask(m, e, sent, limits), limits)
  {
    AskedKeepsOk(m, e, limits);
    if Allows(m, e, limits) && sent {
      var k := 0;
      if m.forwards >= limits.devicePerMinute { k := PastCeiling(m, e, limits); }
      CountedKeepsOk(Asked(m, e, limits), e, limits, k);
    }
  }

  /** The device forwards at most its ceiling, and past it each endpoint at most
      its fair share when it became active. */
  lemma {:induction false} ForwardsBounded(m: Minute, limits: Limits)
    requires MinuteOk(m, limits)
    ensures m.forwards <= limits.devicePerMinute + Shares(limits, |m.order|)
  {
    forall k | 0 <= k < |m.past| ensures m.past[k] <= Share(limits, k + 1) {
      assert PastOk(m, k, limits);
    }
    SumBounded(m.past, limits);
  }

  /** The minute after these requests: (endpoint, whether a sender is configured). */
  function AskAll(asks: seq<(string, bool)>, limits: Limits): Minute {
    if asks == [] then NewMinute
    else var n := |asks| - 1; Ask(AskAll(asks[..n], limits), asks[n].0, asks[n].1, limits)
  }

  lemma {:induction false} AskAllOk(asks: seq<(string, bool)>, limits: Limits)
    ensures MinuteOk(AskAll(asks, limits), limits)
  {
    if asks != [] {
      AskAllOk(asks[..|asks| - 1], limits);
      AskKeepsOk(AskAll(asks[..|asks| - 1], limits), asks[|asks| - 1].0, asks[|asks| - 1].1, limits);
    }
  }

  lemma AskGrows(m: Minute, ask: (string, bool), limits: Limits, e: string)
    ensures Requests(m, e) <= Requests(Ask(m, ask.0, ask.1, limits), e)
    ensures |m.order| <= |Ask(m, ask.0, ask.1, limits).order|
  {
  }

  lemma {:induction false} MoreAsked(asks: seq<(string, bool)>, limits: Limits, i: nat, e: string)
    requires i <= |asks|
    ensures Requests(AskAll(asks[..i], limits), e) <= Requests(AskAll(asks, limits), e)
    ensures |AskAll(asks[..i], limits).order| <= |AskAll(asks, limits).order|
  {
    if i == |asks| {
      assert asks[..i] == asks;
    } else {
      var n := |asks| - 1;
      assert asks[..n][..i] == asks[..i];
      MoreAsked(asks[..n], limits, i, e);
      AskGrows(AskAll(asks[..n], limits), asks[n], limits, e);
    }
  }

  /** In a minute, a device forwards at most its ceiling plus the fair shares of
      its active endpoints. */
  lemma {:induction false} DeviceCeiling(asks: seq<(string, bool)>, limits: Limits)
    ensures AskAll(asks, limits).forwards
      <= limits.devicePerMinute + Shares(limits, |AskAll(asks, limits).order|)
  {
    AskAllOk(asks, limits);
    ForwardsBounded(AskAll(asks, limits), limits);
  }

  /** An endpoint that asks at most its fair share among the endpoints active in
      the minute is never refused, whatever the others do. */
  lemma {:induction false} FairShareNeverRefused(asks: seq<(string, bool)>, limits: Limits, e: string, i: nat)
    requires Requests(AskAll(asks, limits), e) <= Share(limits, Max(|AskAll(asks, limits).order|, 1))
    requires i < |asks| && asks[i].0 == e
    ensures Allows(AskAll(asks[..i], limits), e, limits)
  {
    var m := AskAll(asks[..i], limits);
    assert asks[..i + 1][..i] == asks[..i];
    MoreAsked(asks, limits, i + 1, e);
    AskAllOk(asks[..i], limits);
    var active := |Asked(m, e, limits).order|;
    assert AskAll(asks[..i + 1], limits) == Ask(m, e, asks[i].1, limits);
    DivideByMore(limits.devicePerMinute, Max(active, 1), Max(|AskAll(asks, limits).order|, 1));
  }

  // --- The relay, one handler after the other ------------------------------------------------

  datatype World = World(db: Db, rows: Rows, now: nat)

  datatype Event =
    | PushTo(endpoint: string, id: string, request: Request, outcome: Outcome, configured: bool, at: nat)
    | Api(batch: Batch, at: nat)

  /** A batch of the device API or of the daily cron, at time `at`. */
  predicate ApiBatch(b: Batch, at: nat, limits: Limits) {
    match b
    case Create(_, _, _, _, now) => now == at
    case UpdateToken(_, _, _, _, now) => now == at
    case Touch(_, now) => now == at
    case Purge(invalidBefore, unseenBefore) =>
      invalidBefore == at - limits.invalidRetentionSeconds && unseenBefore == at - limits.inactiveDeviceSeconds
    case Invalidate(_, _, _) => false
    case RecordDelivery(_, _) => false
    case _ => true
  }

  /** Outside push, the push counters change only by the purge of old rows. */
  ghost predicate RowsKept(rows: Rows, rows': Rows, at: nat) {
    forall b: Bucket :: !b.Rule? ==> RowOf(rows', b) == RowOf(rows, b) || RowOf(rows', b) == Purged(RowOf(rows, b), at)
  }

  function After(w: World, e: Event, limits: Limits): Pushed
    requires e.PushTo? && e.id in w.db.devices
  {
    PushAfter(w.db.devices, w.rows, e.endpoint, e.id, e.request, e.outcome, e.configured, e.at, limits)
  }

  ghost predicate Step(w: World, e: Event, w': World, limits: Limits) {
    && w.now <= e.at == w'.now
    && match e
       case PushTo(endpoint, id, _, _, _, _) =>
         && Target(w.db, endpoint, id)
         && w'.db == Db(After(w, e, limits).devices, w.db.subs)
         && w'.rows == After(w, e, limits).rows
       case Api(batch, at) =>
         && ApiBatch(batch, at, limits) && Effect(w.db, batch, w'.db, limits.invalidRowsPerToken)
         && RowsKept(w.rows, w'.rows, at)
  }

  ghost predicate Days(ws: seq<World>, es: seq<Event>, limits: Limits) {
    |ws| == |es| + 1 && forall i :: 0 <= i < |es| ==> Step(ws[i], es[i], ws[i + 1], limits)
  }

  lemma StepOf(ws: seq<World>, es: seq<Event>, limits: Limits, i: nat)
    requires Days(ws, es, limits) && i < |es|
    ensures Step(ws[i], es[i], ws[i + 1], limits)
  {
  }

  /** Counts of a window that is still open are not touched by the purge. */
  lemma PurgeSparesOpenWindow(row: Option<Window>, width: Seconds, at: nat)
    requires width <= PURGE_AGE + 1
    ensures Peek(Purged(row, at), WindowStart(at, width)) == Peek(row, WindowStart(at, width))
  {
  }

  // --- Admission on the real counters ----------------------------------------------------------

  /** The request passes every check before admission. */
  predicate Asking(w: World, e: Event, device: string) {
    e.PushTo? && e.id == device && e.id in w.db.devices && Refusal(w.db.devices[e.id], e.request).None?
  }

  /** The requests of the device's endpoints among these events. */
  function Asks(ws: seq<World>, es: seq<Event>, device: string): seq<(string, bool)>
    requires |ws| >= |es|
  {
    if es == [] then []
    else
      var n := |es| - 1;
      Asks(ws[..n], es[..n], device) + if Asking(ws[n], es[n], device) then [(es[n].endpoint, es[n].configured)] else []
  }

  /** The counters hold exactly this minute. `mine` are the device's endpoints. */
  ghost predicate Matches(rows: Rows, device: string, mine: string -> bool, at: nat, limits: Limits, m: Minute) {
    && Count(rows, PushDevice(device), at, limits) == m.forwards
    && Count(rows, PushDeviceActive(device), at, limits) == |m.order|
    && forall e :: mine(e) ==> Count(rows, PushEndpoint(e), at, limits) == Requests(m, e)
  }

  lemma AdmittedMatches(rows: Rows, device: string, mine: string -> bool, at: nat, limits: Limits, m: Minute, e: string)
    requires Matches(rows, device, mine, at, limits, m) && mine(e)
    ensures Admitted(rows, e, device, at, limits).allowed == Allows(m, e, limits)
    ensures Matches(Admitted(rows, e, device, at, limits).rows, device, mine, at, limits, Asked(m, e, limits))
  {
  }

  /** Each endpoint belongs to one device throughout; `mine` are this device's. */
  ghost predicate Belongs(es: seq<Event>, device: string, mine: string -> bool) {
    forall i :: 0 <= i < |es| && es[i].PushTo? ==> (es[i].id == device <==> mine(es[i].endpoint))
  }

  ghost predicate SameWindow(es: seq<Event>, width: Seconds, at: nat) {
    forall i :: 0 <= i < |es| ==> WindowStart(es[i].at, width) == WindowStart(at, width)
  }

  /** The message is handed to the platform's sender. */
  predicate SentNow(w: World, e: Event, device: string, limits: Limits) {
    Asking(w, e, device) && e.configured && Admitted(w.rows, e.endpoint, e.id, e.at, limits).allowed
  }

  function Sent(ws: seq<World>, es: seq<Event>, device: string, limits: Limits): nat
    requires |ws| >= |es|
  {
    if es == [] then 0
    else
      var n := |es| - 1;
      Sent(ws[..n], es[..n], device, limits) + if SentNow(ws[n], es[n], device, limits) then 1 else 0
  }

  lemma ApiMatches(w: World, e: Event, w': World, limits: Limits, device: string, mine: string -> bool, at: nat,
                   m: Minute)
    requires e.Api? && Step(w, e, w', limits) && WindowStart(e.at, MINUTE) == WindowStart(at, MINUTE)
    requires Matches(w.rows, device, mine, at, limits, m)
    ensures Matches(w'.rows, device, mine, at, limits, m)
  {
    forall b: Bucket | !b.Rule? && WidthOf(b, limits) == MINUTE
      ensures Count(w'.rows, b, at, limits) == Count(w.rows, b, at, limits)
    {
      PurgeSparesOpenWindow(RowOf(w.rows, b), MINUTE, e.at);
    }
  }

  /** The rows a minute of the device is read from. */
  ghost predicate SameRows(rows: Rows, rows': Rows, device: string, mine: string -> bool) {
    && RowOf(rows', PushDevice(device)) == RowOf(rows, PushDevice(device))
    && RowOf(rows', PushDeviceActive(device)) == RowOf(rows, PushDeviceActive(device))
    && forall e :: mine(e) ==> RowOf(rows', PushEndpoint(e)) == RowOf(rows, PushEndpoint(e))
  }

  lemma SameRowsMatch(rows: Rows, rows': Rows, device: string, mine: string -> bool, at: nat, limits: Limits, m: Minute)
    requires SameRows(rows, rows', device, mine) && Matches(rows, device, mine, at, limits, m)
    ensures Matches(rows', device, mine, at, limits, m)
  {
  }


  /** After the answer, only the breaker's counters can have changed. */
  lemma AnswerKeepsMinute(devices: Devices, rows: Rows, id: string, request: Request, outcome: Outcome, now: nat,
                          limits: Limits,
                          device: string, mine: string -> bool)
    requires id in devices && request.ttl.Some?
    ensures SameRows(rows, AfterAnswer(devices, rows, id, request, outcome, now, limits).rows, device, mine)
  {
  }

  lemma OtherAdmission(rows: Rows, endpoint: string, id: string, at: nat, limits: Limits, device: string,
                       mine: string -> bool)
    requires id != device && !mine(endpoint)
    ensures SameRows(rows, Admitted(rows, endpoint, id, at, limits).rows, device, mine)
  {
  }

  lemma OtherDevice(w: World, e: Event, limits: Limits, device: string, mine: string -> bool)
    requires e.PushTo? && e.id in w.db.devices && e.id != device && !mine(e.endpoint)
    ensures SameRows(w.rows, After(w, e, limits).rows, device, mine)
  {
    OtherAdmission(w.rows, e.endpoint, e.id, e.at, limits, device, mine);
    var rows := Admitted(w.rows, e.endpoint, e.id, e.at, limits).rows;
    if e.request.ttl.Some? {
      AnswerKeepsMinute(w.db.devices, Forwarded(rows, e.id, w.db.devices[e.id].platform, e.at, limits), e.id,
                        e.request, e.outcome,
                        e.at, limits, device, mine);
    }
  }

  lemma ForwardedMatches(rows: Rows, device: string, p: Platform, mine: string -> bool, at: nat, limits: Limits,
                         m: Minute, m': Minute)
    requires Matches(rows, device, mine, at, limits, m)
    requires m'.requests == m.requests && m'.order == m.order && m'.forwards == m.forwards + 1
    ensures Matches(Forwarded(rows, device, p, at, limits), device, mine, at, limits, m')
  {
  }

  lemma PushMatches(w: World, e: Event, w': World, limits: Limits, device: string, mine: string -> bool, m: Minute)
    requires e.PushTo? && Step(w, e, w', limits)
    requires e.id == device <==> mine(e.endpoint)
    requires Matches(w.rows, device, mine, e.at, limits, m)
    ensures Matches(w'.rows, device, mine, e.at, limits,
                    if Asking(w, e, device) then Ask(m, e.endpoint, e.configured, limits) else m)
    ensures SentNow(w, e, device, limits) <==> Asking(w, e, device) && e.configured && Allows(m, e.endpoint, limits)
  {
    if e.id != device {
      OtherDevice(w, e, limits, device, mine);
      SameRowsMatch(w.rows, w'.rows, device, mine, e.at, limits, m);
    } else if Asking(w, e, device) {
      AdmittedMatches(w.rows, device, mine, e.at, limits, m, e.endpoint);
      var admission := Admitted(w.rows, e.endpoint, device, e.at, limits);
      if admission.allowed && e.configured {
        var p := w.db.devices[device].platform;
        var rows := Forwarded(admission.rows, device, p, e.at, limits);
        ForwardedMatches(admission.rows, device, p, mine, e.at, limits, Asked(m, e.endpoint, limits),
                         Ask(m, e.endpoint, true, limits));
        AnswerKeepsMinute(w.db.devices, rows, device, e.request, e.outcome, e.at, limits, device, mine);
        SameRowsMatch(rows, w'.rows, device, mine, e.at, limits, Ask(m, e.endpoint, true, limits));
      }
    }
  }

  /** One event, at the time `at` of its minute. */
  lemma EventMatches(w: World, e: Event, w': World, limits: Limits, device: string, mine: string -> bool, at: nat,
                     m: Minute)
    requires Step(w, e, w', limits) && WindowStart(e.at, MINUTE) == WindowStart(at, MINUTE)
    requires e.PushTo? ==> (e.id == device <==> mine(e.endpoint))
    requires Matches(w.rows, device, mine, at, limits, m)
    ensures Matches(w'.rows, device, mine, at, limits,
                    if Asking(w, e, device) then Ask(m, e.endpoint, e.configured, limits) else m)
    ensures SentNow(w, e, device, limits) <==> Asking(w, e, device) && e.configured && Allows(m, e.endpoint, limits)
  {
    if e.Api? {
      ApiMatches(w, e, w', limits, device, mine, at, m);
    } else {
      assert Matches(w.rows, device, mine, e.at, limits, m);
      PushMatches(w, e, w', limits, device, mine, m);
    }
  }

  lemma {:induction false} AskForwards(asks: seq<(string, bool)>, ask: (string, bool), limits: Limits)
    ensures AskAll(asks + [ask], limits) == Ask(AskAll(asks, limits), ask.0, ask.1, limits)
    ensures AskAll(asks + [ask], limits).forwards
         == AskAll(asks, limits).forwards + if ask.1 && Allows(AskAll(asks, limits), ask.0, limits) then 1 else 0
  {
    assert (asks + [ask])[..|asks|] == asks;
  }

  ghost predicate Tracked(ws: seq<World>, es: seq<Event>, limits: Limits, device: string, mine: string -> bool, at: nat)
    requires |ws| > |es|
  {
    && Matches(ws[|es|].rows, device, mine, at, limits, AskAll(Asks(ws, es, device), limits))
    && Sent(ws, es, device, limits) == AskAll(Asks(ws, es, device), limits).forwards
  }

  /** Through the minute the counters hold exactly the requests so far. */
  lemma {:induction false} MinuteTracked(ws: seq<World>, es: seq<Event>, limits: Limits, device: string,
                                         mine: string -> bool, at: nat)
    requires Days(ws, es, limits) && Belongs(es, device, mine) && SameWindow(es, MINUTE, at)
    requires Matches(ws[0].rows, device, mine, at, limits, NewMinute)
    ensures Tracked(ws, es, limits, device, mine, at)
  {
    if es != [] {
      var n := |es| - 1;
      Prefix(ws, es, limits, device);
      MinuteTracked(ws[..n + 1], es[..n], limits, device, mine, at);
      assert Step(ws[n], es[n], ws[n + 1], limits);
      OneMoreTracked(ws, es, limits, device, mine, at);
    }
  }

  lemma {:induction false} OneMoreTracked(ws: seq<World>, es: seq<Event>, limits: Limits, device: string,
                                          mine: string -> bool, at: nat)
    requires es != [] && |ws| == |es| + 1
    requires
      var n := |es| - 1;
      && Step(ws[n], es[n], ws[n + 1], limits)
      && WindowStart(es[n].at, MINUTE) == WindowStart(at, MINUTE)
      && (es[n].PushTo? ==> (es[n].id == device <==> mine(es[n].endpoint)))
      && Matches(ws[n].rows, device, mine, at, limits, AskAll(Asks(ws[..n], es[..n], device), limits))
      && Sent(ws[..n], es[..n], device, limits) == AskAll(Asks(ws[..n], es[..n], device), limits).forwards
    ensures Tracked(ws, es, limits, device, mine, at)
  {
    var n := |es| - 1;
    var asks := Asks(ws[..n], es[..n], device);
    EventMatches(ws[n], es[n], ws[n + 1], limits, device, mine, at, AskAll(asks, limits));
    if Asking(ws[n], es[n], device) {
      AskForwards(asks, (es[n].endpoint, es[n].configured), limits);
    } else {
      assert asks + [] == asks;
    }
  }

  lemma Prefix(ws: seq<World>, es: seq<Event>, limits: Limits, device: string)
    requires Days(ws, es, limits) && es != []
    ensures
      var n := |es| - 1;
      && Days(ws[..n + 1], es[..n], limits)
      && Asks(ws[..n + 1], es[..n], device) == Asks(ws[..n], es[..n], device)
      && Sent(ws[..n + 1], es[..n], device, limits) == Sent(ws[..n], es[..n], device, limits)
  {
    var n := |es| - 1;
    forall i | 0 <= i < n ensures Step(ws[..n + 1][i], es[..n][i], ws[..n + 1][i + 1], limits) {
      assert Step(ws[i], es[i], ws[i + 1], limits);
    }
    OnlyFirstWorlds(ws[..n + 1], ws[..n], es[..n], limits, device);
  }

  lemma {:induction false} OnlyFirstWorlds(a: seq<World>, b: seq<World>, es: seq<Event>, limits: Limits, device: string)
    requires |a| >= |es| && |b| >= |es| && a[..|es|] == b[..|es|]
    ensures Asks(a, es, device) == Asks(b, es, device) && Sent(a, es, device, limits) == Sent(b, es, device, limits)
  {
    if es != [] {
      var n := |es| - 1;
      assert a[..n] == a[..|es|][..n] && b[..n] == b[..|es|][..n];
      assert a[n] == a[..|es|][n] && b[n] == b[..|es|][n];
    }
  }

  /** Admission over one minute of pushes and API calls to any devices: the device
      is sent at most its ceiling and its endpoints' fair shares, and an endpoint
      within its fair share among the active ones is never refused. */
  lemma {:induction false} AdmissionInAMinute(ws: seq<World>, es: seq<Event>, limits: Limits, device: string,
                                              mine: string -> bool, at: nat, e: string, i: nat)
    requires Days(ws, es, limits) && Belongs(es, device, mine) && SameWindow(es, MINUTE, at)
    requires Matches(ws[0].rows, device, mine, at, limits, NewMinute)
    ensures
      var n := |AskAll(Asks(ws, es, device), limits).order|;
      Sent(ws, es, device, limits) <= limits.devicePerMinute + Shares(limits, n)
    ensures
      var m := AskAll(Asks(ws, es, device), limits);
      i < |es| && Asking(ws[i], es[i], device) && es[i].endpoint == e
        && Requests(m, e) <= Share(limits, Max(|m.order|, 1))
      ==> Admitted(ws[i].rows, e, device, es[i].at, limits).allowed
  {
    MinuteTracked(ws, es, limits, device, mine, at);
    DeviceCeiling(Asks(ws, es, device), limits);
    var m := AskAll(Asks(ws, es, device), limits);
    if i < |es| && Asking(ws[i], es[i], device) && es[i].endpoint == e
       && Requests(m, e) <= Share(limits, Max(|m.order|, 1))
    {
      assert Days(ws[..i + 1], es[..i], limits);
      MinuteTracked(ws[..i + 1], es[..i], limits, device, mine, at);
      AsksSplit(ws, es, limits, device, i);
      var asks := Asks(ws, es, device);
      var k := |Asks(ws[..i + 1], es[..i], device)|;
      FairShareNeverRefused(asks, limits, e, k);
      assert Matches(ws[i].rows, device, mine, es[i].at, limits, AskAll(asks[..k], limits));
      AdmittedMatches(ws[i].rows, device, mine, es[i].at, limits, AskAll(asks[..k], limits), e);
    }
  }

  /** The requests before event `i` come first, and then its own. */
  lemma {:induction false} AsksSplit(ws: seq<World>, es: seq<Event>, limits: Limits, device: string, i: nat)
    requires |ws| > |es| && i < |es| && Asking(ws[i], es[i], device)
    ensures
      var before, asks := Asks(ws[..i + 1], es[..i], device), Asks(ws, es, device);
      |before| < |asks| && asks[..|before|] == before && asks[|before|] == (es[i].endpoint, es[i].configured)
  {
    var n := |es| - 1;
    if i < n {
      AsksSplit(ws[..n + 1], es[..n], limits, device, i);
      assert ws[..n + 1][..i + 1] == ws[..i + 1] && es[..n][..i] == es[..i];
      OnlyFirstWorlds(ws[..n + 1], ws[..n], es[..n], limits, device);
    } else {
      OnlyFirstWorlds(ws[..i + 1], ws[..n], es[..i], limits, device);
    }
  }

  // --- The breaker over one of its windows -------------------------------------------------------

  /** A push that invalidated a device on `rejected` evidence, although it had been
      delivered to before. */
  ghost predicate GuardedInvalidation(w: World, e: Event, w': World, p: Platform) {
    && e.PushTo? && e.outcome.DeviceInvalid? && e.id in w.db.devices && e.id in w'.db.devices
    && w.db.devices[e.id].platform == p
    && Guarded(w.db.devices[e.id], e.outcome.expired)
    && Active(w.db.devices[e.id]) && !Active(w'.db.devices[e.id])
  }

  ghost function GuardedInvalidations(ws: seq<World>, es: seq<Event>, p: Platform): nat
    requires |ws| == |es| + 1
  {
    if es == [] then 0
    else
      var n := |es| - 1;
      GuardedInvalidations(ws[..n + 1], es[..n], p) + if GuardedInvalidation(ws[n], es[n], ws[n + 1], p) then 1 else 0
  }

  /** The push is rejected by the platform, and the breaker has to decide. */
  ghost predicate BreakerDecides(w: World, e: Event, p: Platform) {
    e.PushTo? && e.outcome.DeviceInvalid? && e.id in w.db.devices && w.db.devices[e.id].platform == p
    && Guarded(w.db.devices[e.id], e.outcome.expired)
  }

  /** A push sees the breaker's counters only through a guarded rejection. */
  lemma BreakerCounts(w: World, e: Event, w': World, limits: Limits, p: Platform)
    requires e.PushTo? && Step(w, e, w', limits)
    ensures
      var d := w.db.devices[e.id];
      var i, i' := Count(w.rows, Invalidations(p), e.at, limits), Count(w'.rows, Invalidations(p), e.at, limits);
      i <= i' &&
      (!(e.outcome.DeviceInvalid? && d.platform == p && Guarded(d, e.outcome.expired)) ==> i' == i)
    ensures GuardedInvalidation(w, e, w', p) ==>
      && Count(w'.rows, Invalidations(p), e.at, limits) == Count(w.rows, Invalidations(p), e.at, limits) + 1
      && !BreakerOpen(Count(w'.rows, Invalidations(p), e.at, limits), Count(w'.rows, Deliveries(p), e.at, limits),
                      limits)
  {
    AdmissionKeepsBreaker(w.rows, e.endpoint, e.id, e.at, limits, p);
    var d := w.db.devices[e.id];
    if Refusal(d, e.request).None? {
      var admission := Admitted(w.rows, e.endpoint, e.id, e.at, limits);
      var rows := Forwarded(admission.rows, e.id, d.platform, e.at, limits);
      if admission.allowed && e.configured {
        AnswerBreaker(w.db.devices, rows, e.id, e.request, e.outcome, e.at, limits, p);
      }
    }
  }

  lemma AdmissionKeepsBreaker(rows: Rows, endpoint: string, id: string, at: nat, limits: Limits, p: Platform)
    ensures RowOf(Admitted(rows, endpoint, id, at, limits).rows, Invalidations(p)) == RowOf(rows, Invalidations(p))
  {
  }

  lemma AnswerBreaker(devices: Devices, rows: Rows, id: string, request: Request, outcome: Outcome, now: nat,
                      limits: Limits, p: Platform)
    requires id in devices && request.ttl.Some?
    ensures
      var after := AfterAnswer(devices, rows, id, request, outcome, now, limits);
      var i, i' := Count(rows, Invalidations(p), now, limits), Count(after.rows, Invalidations(p), now, limits);
      && (i' == if outcome.DeviceInvalid? && devices[id].platform == p && Guarded(devices[id], outcome.expired)
          then i + 1 else i)
      && (outcome.DeviceInvalid? && devices[id].platform == p && Guarded(devices[id], outcome.expired)
          && after.devices != devices ==>
            !BreakerOpen(i', Count(after.rows, Deliveries(p), now, limits), limits))
  {
  }

  lemma BreakerEvent(w: World, e: Event, w': World, limits: Limits, p: Platform, at: nat)
    requires Step(w, e, w', limits) && limits.breakerWindowSeconds <= PURGE_AGE + 1
    requires WindowStart(e.at, limits.breakerWindowSeconds) == WindowStart(at, limits.breakerWindowSeconds)
    ensures Count(w.rows, Invalidations(p), at, limits) <= Count(w'.rows, Invalidations(p), at, limits)
    ensures GuardedInvalidation(w, e, w', p) ==>
      && Count(w'.rows, Invalidations(p), at, limits) == Count(w.rows, Invalidations(p), at, limits) + 1
      && !BreakerOpen(Count(w'.rows, Invalidations(p), at, limits), Count(w'.rows, Deliveries(p), at, limits), limits)
    ensures !BreakerDecides(w, e, p) ==>
      Count(w'.rows, Invalidations(p), at, limits) == Count(w.rows, Invalidations(p), at, limits)
  {
    if e.Api? {
      PurgeSparesOpenWindow(RowOf(w.rows, Invalidations(p)), limits.breakerWindowSeconds, e.at);
    } else {
      BreakerCounts(w, e, w', limits, p);
    }
  }

  /** In one breaker window at most `breakerMaxInvalidations` devices that were
      delivered to before are invalidated on rejections. */
  lemma {:induction false} BreakerBounds(ws: seq<World>, es: seq<Event>, limits: Limits, p: Platform, at: nat)
    requires Days(ws, es, limits) && SameWindow(es, limits.breakerWindowSeconds, at)
    requires limits.breakerWindowSeconds <= PURGE_AGE + 1
    ensures GuardedInvalidations(ws, es, p) <= limits.breakerMaxInvalidations
    ensures GuardedInvalidations(ws, es, p) <= Count(ws[|es|].rows, Invalidations(p), at, limits)
  {
    if es != [] {
      var n := |es| - 1;
      Prefix(ws, es, limits, "");
      BreakerBounds(ws[..n + 1], es[..n], limits, p, at);
      assert Step(ws[n], es[n], ws[n + 1], limits);
      BreakerEvent(ws[n], es[n], ws[n + 1], limits, p, at);
    }
  }

  /** Each such invalidation, once deliveries have reached the minimum, leaves
      their number within the ratio of deliveries. */
  lemma {:induction false} BreakerRatio(ws: seq<World>, es: seq<Event>, limits: Limits, p: Platform, at: nat)
    requires Days(ws, es, limits) && SameWindow(es, limits.breakerWindowSeconds, at)
    requires limits.breakerWindowSeconds <= PURGE_AGE + 1
    requires es != [] && GuardedInvalidation(ws[|es| - 1], es[|es| - 1], ws[|es|], p)
    ensures
      var deliveries := Count(ws[|es|].rows, Deliveries(p), at, limits);
      deliveries >= limits.breakerMinDeliveries ==>
        GuardedInvalidations(ws, es, p) as real <= limits.breakerShare(deliveries)
  {
    BreakerBounds(ws, es, limits, p, at);
    assert Step(ws[|es| - 1], es[|es| - 1], ws[|es| - 1 + 1], limits);
    BreakerEvent(ws[|es| - 1], es[|es| - 1], ws[|es|], limits, p, at);
  }

  // --- Retention ------------------------------------------------------------------------------------

  ghost predicate TimesOk(w: World) {
    forall id :: id in w.db.devices ==> DeviceTimesOk(w.db.devices[id], w.now)
  }

  predicate DeviceTimesOk(d: Device, now: nat) {
    d.seenAt <= now && (d.deliveredAt.Some? ==> d.deliveredAt.value <= d.seenAt)
  }

  predicate Accepted(w: World, e: Event, limits: Limits) {
    e.PushTo? && e.id in w.db.devices && After(w, e, limits).response.status == 201
  }

  /** If the device is there, it was in use less than a day before `t` or later. */
  predicate InUseSince(w: World, id: string, t: int) {
    id in w.db.devices ==> w.db.devices[id].seenAt > t - DAY
  }

  /** A push writes its own device's row at most: a delivery or an invalidation. */
  lemma PushedDevices(w: World, e: Event, limits: Limits)
    requires e.PushTo? && e.id in w.db.devices
    ensures
      var devices, devices' := w.db.devices, After(w, e, limits).devices;
      || devices' == devices
      || devices' == RelayStore.Delivered(devices, e.id, e.at)
      || devices' == Invalidated(devices, e.id, devices[e.id].token, e.at)
  {
    if e.request.ttl.Some? {
      var rows := Admitted(w.rows, e.endpoint, e.id, e.at, limits).rows;
      var sent := Forwarded(rows, e.id, w.db.devices[e.id].platform, e.at, limits);
      AnswerDevices(w.db.devices, sent, e.id, e.request, e.outcome, e.at, limits);
    }
  }

  lemma AnswerDevices(devices: Devices, rows: Rows, id: string, request: Request, outcome: Outcome, now: nat,
                      limits: Limits)
    requires id in devices && request.ttl.Some?
    ensures
      var devices' := AfterAnswer(devices, rows, id, request, outcome, now, limits).devices;
      || devices' == devices
      || devices' == RelayStore.Delivered(devices, id, now)
      || devices' == Invalidated(devices, id, devices[id].token, now)
  {
  }

  /** What one event does to the times of a row that is there afterwards. */
  ghost predicate TimesAfter(w: World, e: Event, w': World, d: string)
    requires d in w'.db.devices
  {
    && DeviceTimesOk(w'.db.devices[d], w'.now)
    && (d in w.db.devices ==> w.db.devices[d].seenAt <= w'.db.devices[d].seenAt)
    && (d !in w.db.devices ==> w'.db.devices[d].seenAt == e.at)
  }

  lemma PushTimes(w: World, e: Event, w': World, limits: Limits, d: string)
    requires Step(w, e, w', limits) && TimesOk(w) && e.PushTo? && d in w'.db.devices
    ensures TimesAfter(w, e, w', d)
  {
    PushedDevices(w, e, limits);
    assert d in w.db.devices && DeviceTimesOk(w.db.devices[d], w.now);
  }

  lemma ApiTimes(w: World, e: Event, w': World, limits: Limits, d: string)
    requires Step(w, e, w', limits) && TimesOk(w) && e.Api? && d in w'.db.devices
    ensures TimesAfter(w, e, w', d)
  {
    assert d in w.db.devices ==> DeviceTimesOk(w.db.devices[d], w.now);
    if e.batch.Create? && e.batch.id != d { assert d in w'.db.devices - {e.batch.id}; }
  }

  lemma StepKeepsTimes(w: World, e: Event, w': World, limits: Limits, id: string, t: int)
    requires Step(w, e, w', limits) && TimesOk(w)
    ensures TimesOk(w')
    ensures t <= e.at && (id in w.db.devices ==> InUseSince(w, id, t)) ==> InUseSince(w', id, t)
  {
    forall d | d in w'.db.devices ensures TimesAfter(w, e, w', d) {
      if e.PushTo? { PushTimes(w, e, w', limits, d); } else { ApiTimes(w, e, w', limits, d); }
    }
  }

  /** A push answered 201 leaves its device in use. */
  lemma AcceptedIsInUse(w: World, e: Event, w': World, limits: Limits)
    requires Accepted(w, e, limits) && Step(w, e, w', limits) && TimesOk(w)
    ensures InUseSince(w', e.id, e.at)
  {
    assert DeviceTimesOk(w.db.devices[e.id], w.now);
  }

  lemma {:induction false} StaysInUse(ws: seq<World>, es: seq<Event>, limits: Limits, i: nat, j: nat)
    requires Days(ws, es, limits) && TimesOk(ws[0]) && i < j <= |es|
    requires Accepted(ws[i], es[i], limits)
    ensures InUseSince(ws[j], es[i].id, es[i].at) && es[i].at <= ws[j].now
    decreases j
  {
    if j == i + 1 {
      InUseNext(ws, es, limits, i);
    } else {
      StaysInUse(ws, es, limits, i, j - 1);
      InUseOneMore(ws, es, limits, j, es[i].id, es[i].at);
    }
  }

  lemma InUseNext(ws: seq<World>, es: seq<Event>, limits: Limits, i: nat)
    requires Days(ws, es, limits) && TimesOk(ws[0]) && i < |es| && Accepted(ws[i], es[i], limits)
    ensures InUseSince(ws[i + 1], es[i].id, es[i].at) && es[i].at <= ws[i + 1].now
  {
    TimesThroughout(ws, es, limits, i);
    StepOf(ws, es, limits, i);
    AcceptedIsInUse(ws[i], es[i], ws[i + 1], limits);
  }

  lemma InUseOneMore(ws: seq<World>, es: seq<Event>, limits: Limits, j: nat, id: string, at: nat)
    requires Days(ws, es, limits) && TimesOk(ws[0]) && 0 < j <= |es|
    requires InUseSince(ws[j - 1], id, at) && at <= ws[j - 1].now
    ensures InUseSince(ws[j], id, at) && at <= ws[j].now
  {
    TimesThroughout(ws, es, limits, j - 1);
    StepOf(ws, es, limits, j - 1);
    StepKeepsTimes(ws[j - 1], es[j - 1], ws[j], limits, id, at);
  }

  lemma {:induction false} TimesThroughout(ws: seq<World>, es: seq<Event>, limits: Limits, i: nat)
    requires Days(ws, es, limits) && TimesOk(ws[0]) && i <= |es|
    ensures TimesOk(ws[i])
    ensures i < |es| && es[i].PushTo? ==> es[i].id in ws[i].db.devices
  {
    if i > 0 {
      TimesThroughout(ws, es, limits, i - 1);
      assert Step(ws[i - 1], es[i - 1], ws[i - 1 + 1], limits);
      StepKeepsTimes(ws[i - 1], es[i - 1], ws[i], limits, "", 0);
    }
    if i < |es| { assert Step(ws[i], es[i], ws[i + 1], limits); }
  }

  /** A device whose push was answered 201 at `t` is not deleted for inactivity
      before t + inactiveDeviceSeconds - one day. */
  lemma RetainedAfterDelivery(ws: seq<World>, es: seq<Event>, limits: Limits, i: nat, j: nat)
    requires Days(ws, es, limits) && TimesOk(ws[0]) && i < j < |es|
    requires Accepted(ws[i], es[i], limits)
    requires es[j].Api? && es[j].batch.Purge?
    requires es[i].id in ws[j].db.devices && es[i].id !in ws[j + 1].db.devices
    ensures
      var d := ws[j].db.devices[es[i].id];
      || (d.invalidatedAt.Some? && d.invalidatedAt.value < es[j].at - limits.invalidRetentionSeconds)
      || es[j].at > es[i].at + limits.inactiveDeviceSeconds - DAY
  {
    StaysInUse(ws, es, limits, i, j);
    assert Step(ws[j], es[j], ws[j + 1], limits);
  }
}
